/**
 * stitch.js: load every chunk's image, drop the ones that fail to load,
 * and draw the rest one under the other on a single canvas that is then
 * offered for download. Decoding is done by the browser and is given here
 * as the function `load`.
 */
module Stitch {
  import opened Results
  import opened Capture

  /** A chunk image that loaded, with the size the browser decoded. */
  datatype Img = Img(source: Pixels, width: nat, height: nat)

  /** One `drawImage(im, 0, y)` call. */
  datatype Draw = Draw(image: Img, y: int)

  datatype Canvas = Canvas(width: int, height: int, draws: seq<Draw>)

  datatype Download = Download(fileName: string, canvas: Canvas)

  datatype StitchError = NoValidChunkImages

  const FileName: string := "fullpage_screenshot.png"

  /** What loading one chunk's data URL yields: its image, or `null` on error. */
  function Load(c: Chunk, load: Pixels -> Option<Size>): (r: Option<Img>)
    ensures r.None? <==> load(c.image).None?
    ensures r.Some? ==> r.value.source == c.image && Size(r.value.width, r.value.height) == load(c.image).value
  {
    match load(c.image)
    case None => None
    case Some(s) => Some(Img(c.image, s.width, s.height))
  }

  /** `Promise.all(chunks.map(...))`: one load result per chunk, in chunk order. */
  function LoadAll(chunks: seq<Chunk>, load: Pixels -> Option<Size>): (imgs: seq<Option<Img>>)
    ensures |imgs| == |chunks|
    ensures forall i :: 0 <= i < |chunks| ==> imgs[i] == Load(chunks[i], load)
  {
    seq(|chunks|, i requires 0 <= i < |chunks| => Load(chunks[i], load))
  }

  /** `imgs.filter(Boolean)`: the images that loaded, in their original order. */
  function ValidImages(imgs: seq<Option<Img>>): (valid: seq<Img>)
    ensures |valid| <= |imgs|
    ensures forall x :: x in valid <==> Some(x) in imgs
  {
    if imgs == [] then []
    else
      var rest := ValidImages(imgs[1..]);
      assert forall x :: Some(x) in imgs <==> Some(x) == imgs[0] || Some(x) in imgs[1..];
      match imgs[0]
      case None => rest
      case Some(im) => [im] + rest
  }

  /** `valid.reduce((sum, i) => sum + i.height, 0)`: the heights added in order. */
  function TotalHeight(valid: seq<Img>): (total: nat)
    ensures valid == [] ==> total == 0
    ensures forall i :: 0 <= i < |valid| ==> valid[i].height <= total
  {
    if valid == [] then 0 else TotalHeight(valid[..|valid| - 1]) + valid[|valid| - 1].height
  }

  /** Filtering splits over concatenation, so the images that loaded keep their relative order. */
  lemma {:induction false} ValidImagesAppend(a: seq<Option<Img>>, b: seq<Option<Img>>)
    ensures ValidImages(a + b) == ValidImages(a) + ValidImages(b)
  {
    if a == [] {
      assert a + b == b;
    } else {
      assert (a + b)[1..] == a[1..] + b;
      ValidImagesAppend(a[1..], b);
    }
  }

  /** The height of a concatenation is the sum of the heights. */
  lemma {:induction false} TotalHeightAppend(a: seq<Img>, b: seq<Img>)
    ensures TotalHeight(a + b) == TotalHeight(a) + TotalHeight(b)
    decreases |b|
  {
    if b == [] {
      assert a + b == a;
    } else {
      var b' := b[..|b| - 1];
      assert (a + b)[..|a + b| - 1] == a + b';
      TotalHeightAppend(a, b');
    }
  }

  /**
   * Chunk `i` is drawn at the sum of the heights before it: offsets never
   * decrease, each image ends where the next begins and the last ends at
   * the bottom of the canvas.
   */
  lemma {:induction false} OffsetsTile(valid: seq<Img>, i: nat, j: nat)
    requires i <= j <= |valid|
    ensures TotalHeight(valid[..i]) <= TotalHeight(valid[..j])
    ensures i < |valid| ==> TotalHeight(valid[..i + 1]) == TotalHeight(valid[..i]) + valid[i].height
    ensures i < |valid| ==> TotalHeight(valid[..i]) + valid[i].height <= TotalHeight(valid)
  {
    assert valid[..j] == valid[..i] + valid[i..j];
    TotalHeightAppend(valid[..i], valid[i..j]);
    if i < |valid| {
      assert valid[..i + 1][..i] == valid[..i];
      assert valid == valid[..i + 1] + valid[i + 1..];
      TotalHeightAppend(valid[..i + 1], valid[i + 1..]);
    }
  }

  /** The draw loop: each image at the running offset `y`, which ends at the total height. */
  method DrawAll(valid: seq<Img>) returns (draws: seq<Draw>, y: int)
    ensures |draws| == |valid|
    ensures forall i :: 0 <= i < |valid| ==> draws[i] == Draw(valid[i], TotalHeight(valid[..i]))
    ensures y == TotalHeight(valid)
  {
    draws, y := [], 0;
    var k := 0;
    while k < |valid|
      invariant 0 <= k <= |valid|
      invariant |draws| == k
      invariant forall i :: 0 <= i < k ==> draws[i] == Draw(valid[i], TotalHeight(valid[..i]))
      invariant y == TotalHeight(valid[..k])
    {
      var im := valid[k];
      draws := draws + [Draw(im, y)];
      assert valid[..k + 1][..k] == valid[..k];
      y := y + im.height;
      k := k + 1;
    }
    assert valid[..k] == valid;
  }

  /**
   * `stitchAndDownload`: fails when no chunk image loads; otherwise a canvas
   * as wide as the first image that loaded and as tall as all of them
   * together, with each drawn below the previous ones.
   */
  method StitchAndDownload(chunks: seq<Chunk>, load: Pixels -> Option<Size>) returns (r: Result<Download, StitchError>)
    ensures var valid := ValidImages(LoadAll(chunks, load));
      && (r.Err? <==> valid == [])
      && (r.Err? ==> r.error == NoValidChunkImages)
      && (r.Ok? ==>
        && r.value.fileName == FileName
        && r.value.canvas.width == valid[0].width
        && r.value.canvas.height == TotalHeight(valid)
        && |r.value.canvas.draws| == |valid|
        && forall i :: 0 <= i < |valid| ==>
             r.value.canvas.draws[i] == Draw(valid[i], TotalHeight(valid[..i])))
  {
    var imgs := LoadAll(chunks, load);
    var valid := ValidImages(imgs);
    if |valid| == 0 {
      return Err(NoValidChunkImages);
    }
    var w := valid[0].width;
    var totalH := TotalHeight(valid);
    var draws, y := DrawAll(valid);
    r := Ok(Download(FileName, Canvas(w, totalH, draws)));
  }

  /** Filtering a list of failed loads leaves nothing. */
  lemma {:induction false} NoneLoadedNoneValid(imgs: seq<Option<Img>>)
    requires forall i :: 0 <= i < |imgs| ==> imgs[i].None?
    ensures ValidImages(imgs) == []
  {
    if imgs != [] {
      NoneLoadedNoneValid(imgs[1..]);
    }
  }

  /** When no chunk loads there is nothing to stitch, whatever the chunks are. */
  lemma NothingLoadsNothingStitched(chunks: seq<Chunk>, load: Pixels -> Option<Size>)
    requires forall i :: 0 <= i < |chunks| ==> load(chunks[i].image).None?
    ensures ValidImages(LoadAll(chunks, load)) == []
  {
    NoneLoadedNoneValid(LoadAll(chunks, load));
  }

  /** Heights 400, 720 and 150 are drawn at 0, 400 and 1120 on a canvas 1270 tall. */
  lemma OffsetsExample(a: Pixels, b: Pixels, c: Pixels, w: nat)
    ensures var valid := [Img(a, w, 400), Img(b, w, 720), Img(c, w, 150)];
      && TotalHeight(valid[..0]) == 0
      && TotalHeight(valid[..1]) == 400
      && TotalHeight(valid[..2]) == 1120
      && TotalHeight(valid) == 1270
  {
    var valid := [Img(a, w, 400), Img(b, w, 720), Img(c, w, 150)];
    assert valid[..1][..0] == [];
    assert valid[..2][..1] == valid[..1];
    assert valid[..2] == valid[..|valid| - 1];
  }
}
