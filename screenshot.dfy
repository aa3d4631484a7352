/** The crop rectangle `processScreenshot` (app/worker/screenshot.ts) hands to
    the image library: the full width, and the height limited to the aspect
    ratio from app/common/config.ts. */
module Screenshot {
  import opened Wrappers

  /** The `Flag` values a post URL can carry. */
  datatype Flag = Widescreen | LightMode | DarkMode

  datatype AspectRatio = AspectRatio(width: nat, height: nat)

  /** `config.screenshot.default.aspectRatio`; neither branch below uses it. */
  const DefaultAspectRatio: AspectRatio := AspectRatio(430, 932)

  /** `config.screenshot.widescreen.aspectRatio`: 16 wide, 9 * 2 high. */
  const WidescreenAspectRatio: AspectRatio := AspectRatio(16, 9 * 2)

  /** The `extract` region: left, top, width, height in pixels. */
  datatype Region = Region(left: nat, top: nat, width: nat, height: nat)

  const NoDimensions: string := "no width and/or height"

  /** The ratio picked by the flag test. Both branches name the widescreen
      ratio, so the choice does not depend on the flags. */
  function ChooseAspectRatio(flags: seq<Flag>): (ratio: AspectRatio)
    ensures ratio == WidescreenAspectRatio
  {
    if Widescreen in flags then WidescreenAspectRatio else WidescreenAspectRatio
  }

  /** `Math.min(height, Math.trunc(width * ratio.height / ratio.width))` on
      non-negative integers, where truncation is natural-number division. */
  function CropHeight(width: nat, height: nat, ratio: AspectRatio): (h: nat)
    requires ratio.width > 0
    ensures h <= height
    ensures h <= width * ratio.height / ratio.width
    ensures h == height || h == width * ratio.height / ratio.width
  {
    var limit := width * ratio.height / ratio.width;
    if height < limit then height else limit
  }

  /** `processScreenshot` up to the image calls: fails when the width or the
      height is missing or zero, and otherwise crops from the top-left corner,
      keeping the full width and cutting the height to the ratio. */
  function CropRegion(width: Option<nat>, height: Option<nat>, flags: seq<Flag>): (r: Result<Region, string>)
    ensures r.Failure? <==> width in {None, Some(0)} || height in {None, Some(0)}
    ensures r.Failure? ==> r.error == NoDimensions
    ensures r.Success? ==> r.value.left == 0 && r.value.top == 0 && r.value.width == width.value
  {
    if width.None? || width.value == 0 || height.None? || height.value == 0 then
      Failure(NoDimensions)
    else
      var ratio := ChooseAspectRatio(flags);
      Success(Region(0, 0, width.value, CropHeight(width.value, height.value, ratio)))
  }

  /** The cropped height: at least one pixel, never more than the original
      height or the widescreen bound `trunc(width * 18 / 16)`; equal to that
      bound when it is below the height, and to the height (nothing is cut)
      when the image already fits. */
  lemma CropHeightBounds(width: nat, height: nat, flags: seq<Flag>)
    requires width > 0 && height > 0
    ensures var r := CropRegion(Some(width), Some(height), flags);
      var bound := width * WidescreenAspectRatio.height / WidescreenAspectRatio.width;
      && r.Success?
      && 1 <= r.value.height <= height
      && r.value.height <= bound
      && (bound < height ==> r.value.height == bound)
      && (bound >= height ==> r.value.height == height)
  {
  }

  /** The flags never change the crop. */
  lemma CropIgnoresFlags(width: Option<nat>, height: Option<nat>, flags: seq<Flag>, others: seq<Flag>)
    ensures CropRegion(width, height, flags) == CropRegion(width, height, others)
  {
  }
}
