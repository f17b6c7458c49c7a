/**
 * The Outline effect (effects/Outline.h and effects/Outline.cpp): five keyframe
 * curves (width, red, green, blue, alpha); per frame, a binary mask of the fully
 * opaque pixels is blurred, thresholded back to binary, painted in a solid colour
 * and the original opaque pixels are laid on top; the frame's image is overwritten
 * with the result. The Gaussian blur is a parameter of the model.
 */
module OutlineEffect {
  import opened Outcomes
  import opened CppArith
  import opened Keyframes
  import opened JsonModel

  type Byte = x: int | 0 <= x < 256

  /**
   * One pixel of the four-channel, 8-bit matrix the effect works on, in the
   * channel order it indexes: the colour is written as (blue, green, red, alpha)
   * and channel 3 is read as alpha.
   */
  datatype Pixel = Pixel(blue: Byte, green: Byte, red: Byte, alpha: Byte)

  /** What a freshly allocated matrix holds: every byte 0. */
  const TRANSPARENT := Pixel(0, 0, 0, 0)

  /** The colour "#000000" a blank Frame's image is filled with. */
  const OPAQUE_BLACK := Pixel(0, 0, 0, 255)

  /** A frame's image: width * height pixels, row by row. */
  class Image {
    var width: nat
    var height: nat
    var pixels: array<Pixel>

    ghost predicate Valid()
      reads this
    {
      pixels.Length == width * height
    }

    constructor (width: nat, height: nat, fill: Pixel)
      ensures Valid() && fresh(pixels)
      ensures this.width == width && this.height == height
      ensures pixels[..] == Fill(width * height, fill)
    {
      this.width := width;
      this.height := height;
      pixels := new Pixel[width * height](_ => fill);
    }
  }

  /** A frame of video; the effect only touches its image. */
  class Frame {
    var number: int
    var image: Image

    /** Frame(): frame 1 with a 1x1 image of opaque black. */
    constructor Blank()
      ensures number == 1 && fresh(image) && fresh(image.pixels) && image.Valid()
      ensures image.width == 1 && image.height == 1 && image.pixels[..] == [OPAQUE_BLACK]
    {
      number := 1;
      image := new Image(1, 1, OPAQUE_BLACK);
    }
  }

  // ---------------------------------------------------------------------------
  // The per-pixel stages of GetFrame, as functions of the pixel sequence

  function Fill(n: nat, p: Pixel): (s: seq<Pixel>)
    ensures |s| == n
  {
    seq(n, _ => p)
  }

  /** Channel 3 of every pixel (cv::split, then the fourth plane). */
  function AlphaChannel(img: seq<Pixel>): (a: seq<Byte>)
    ensures |a| == |img|
  {
    seq(|img|, i requires 0 <= i < |img| => img[i].alpha)
  }

  /** cv::threshold with THRESH_BINARY: maxval above thresh, 0 elsewhere. */
  function Threshold(src: seq<Byte>, thresh: Byte, maxval: Byte): (dst: seq<Byte>)
    ensures |dst| == |src|
  {
    seq(|src|, i requires 0 <= i < |src| => if src[i] > thresh then maxval else 0)
  }

  /** Mat::copyTo with a mask: src where the mask is nonzero, dst elsewhere. */
  function MaskedCopy(dst: seq<Pixel>, src: seq<Pixel>, mask: seq<Byte>): (r: seq<Pixel>)
    requires |src| == |dst| == |mask|
    ensures |r| == |dst|
  {
    seq(|dst|, i requires 0 <= i < |dst| => if mask[i] != 0 then src[i] else dst[i])
  }

  /** The alpha mask: the alpha channel thresholded at 254. */
  function AlphaMask(img: seq<Pixel>): (m: seq<Byte>)
    ensures |m| == |img|
  {
    Threshold(AlphaChannel(img), 254, 255)
  }

  /** The outline mask: the blurred alpha mask thresholded at 0. */
  function OutlineMask(blurred: seq<Byte>): (m: seq<Byte>)
    ensures |m| == |blurred|
  {
    Threshold(blurred, 0, 255)
  }

  /**
   * final_image: the solid colour copied onto a zeroed matrix through the outline
   * mask, then the original pixels copied on top through the alpha mask.
   */
  function Composite(img: seq<Pixel>, blurred: seq<Byte>, colour: Pixel): (r: seq<Pixel>)
    requires |blurred| == |img|
    ensures |r| == |img|
  {
    var n := |img|;
    MaskedCopy(MaskedCopy(Fill(n, TRANSPARENT), Fill(n, colour), OutlineMask(blurred)), img, AlphaMask(img))
  }

  /**
   * The Gaussian blur of a mask given the image width and sigma (cv::GaussianBlur
   * with the kernel size derived from sigma and the default border); it is not
   * part of this model beyond returning a mask of the same size.
   */
  type Blur = (seq<Byte>, nat, int) -> seq<Byte>

  ghost predicate KeepsSize(blur: Blur)
  {
    forall m: seq<Byte>, w: nat, s: int :: |blur(m, w, s)| == |m|
  }

  /** The pixels GetFrame leaves in a frame whose image is img. */
  function Outlined(img: seq<Pixel>, width: nat, sigma: int, colour: Pixel, blur: Blur): (r: seq<Pixel>)
    requires KeepsSize(blur)
    ensures |r| == |img|
  {
    Composite(img, blur(AlphaMask(img), width, sigma), colour)
  }

  // ---------------------------------------------------------------------------
  // What the composite is, pixel by pixel

  /** Both masks are binary; the alpha mask is set exactly where alpha is 255. */
  lemma MasksBinary(img: seq<Pixel>, blurred: seq<Byte>, i: int)
    requires 0 <= i < |img| && 0 <= i < |blurred|
    ensures AlphaMask(img)[i] == (if img[i].alpha == 255 then 255 else 0)
    ensures OutlineMask(blurred)[i] == (if blurred[i] > 0 then 255 else 0)
  {
  }

  /**
   * Each composited pixel is the original where alpha is 255, else the solid
   * colour where the blurred mask is nonzero, else all zero.
   */
  lemma CompositeAt(img: seq<Pixel>, blurred: seq<Byte>, colour: Pixel, i: int)
    requires |blurred| == |img| && 0 <= i < |img|
    ensures Composite(img, blurred, colour)[i] ==
      if img[i].alpha == 255 then img[i]
      else if blurred[i] > 0 then colour
      else TRANSPARENT
  {
    MasksBinary(img, blurred, i);
  }

  /** The outline never covers a fully opaque pixel. */
  lemma OpaquePixelsKept(img: seq<Pixel>, blurred: seq<Byte>, colour: Pixel)
    requires |blurred| == |img|
    ensures forall i :: 0 <= i < |img| && img[i].alpha == 255 ==> Composite(img, blurred, colour)[i] == img[i]
  {
    forall i | 0 <= i < |img| && img[i].alpha == 255
      ensures Composite(img, blurred, colour)[i] == img[i]
    {
      CompositeAt(img, blurred, colour, i);
    }
  }

  /**
   * The outline is painted in the colour exactly on the pixels that are not fully
   * opaque and that the blur reached.
   */
  lemma RingPainted(img: seq<Pixel>, blurred: seq<Byte>, colour: Pixel)
    requires |blurred| == |img|
    ensures forall i :: 0 <= i < |img| && img[i].alpha < 255 ==>
      Composite(img, blurred, colour)[i] == (if blurred[i] > 0 then colour else TRANSPARENT)
  {
    forall i | 0 <= i < |img| && img[i].alpha < 255
      ensures Composite(img, blurred, colour)[i] == (if blurred[i] > 0 then colour else TRANSPARENT)
    {
      CompositeAt(img, blurred, colour, i);
    }
  }

  /**
   * An image with no fully opaque pixel, under a blur that maps the empty mask to
   * itself, comes out all zero whatever the width and colour.
   */
  lemma NoOpaquePixelsGivesTransparent(img: seq<Pixel>, width: nat, sigma: int, colour: Pixel, blur: Blur)
    requires KeepsSize(blur)
    requires forall i :: 0 <= i < |img| ==> img[i].alpha < 255
    requires blur(seq(|img|, _ => 0), width, sigma) == seq(|img|, _ => 0)
    ensures Outlined(img, width, sigma, colour, blur) == Fill(|img|, TRANSPARENT)
  {
    var mask := AlphaMask(img);
    assert mask == seq(|img|, _ => 0);
    var blurred := blur(mask, width, sigma);
    forall i | 0 <= i < |img|
      ensures Outlined(img, width, sigma, colour, blur)[i] == TRANSPARENT
    {
      CompositeAt(img, blurred, colour, i);
    }
  }

  // ---------------------------------------------------------------------------
  // The in-place pixel loops

  /** cv::split followed by clone of plane 3: a new array holding every pixel's alpha. */
  method SplitAlpha(pixels: array<Pixel>) returns (plane: array<Byte>)
    ensures fresh(plane)
    ensures plane[..] == AlphaChannel(pixels[..])
  {
    plane := new Byte[pixels.Length];
    for i := 0 to pixels.Length
      invariant forall k :: 0 <= k < i ==> plane[k] == pixels[k].alpha
    {
      plane[i] := pixels[i].alpha;
    }
  }

  /** cv::threshold(m, m, thresh, maxval, THRESH_BINARY), in place. */
  method ThresholdInPlace(m: array<Byte>, thresh: Byte, maxval: Byte)
    modifies m
    ensures m[..] == Threshold(old(m[..]), thresh, maxval)
  {
    for i := 0 to m.Length
      invariant forall k :: 0 <= k < i ==> m[k] == (if old(m[k]) > thresh then maxval else 0)
      invariant forall k :: i <= k < m.Length ==> m[k] == old(m[k])
    {
      m[i] := if m[i] > thresh then maxval else 0;
    }
  }

  /** src.copyTo(dst, mask): every pixel whose mask byte is nonzero is copied. */
  method CopyMasked(src: array<Pixel>, dst: array<Pixel>, mask: array<Byte>)
    requires src.Length == dst.Length == mask.Length
    modifies dst
    ensures dst[..] == MaskedCopy(old(dst[..]), old(src[..]), mask[..])
  {
    for i := 0 to dst.Length
      invariant forall k :: 0 <= k < i ==> dst[k] == (if mask[k] != 0 then old(src[k]) else old(dst[k]))
      invariant forall k :: i <= k < dst.Length ==> dst[k] == old(dst[k]) && src[k] == old(src[k])
    {
      if mask[i] != 0 {
        dst[i] := src[i];
      }
    }
  }

  // ---------------------------------------------------------------------------
  // The effect's parameters

  /** The five animated parameters of the effect. */
  datatype Params = Params(width: Keyframe, red: Keyframe, green: Keyframe, blue: Keyframe, alpha: Keyframe)

  /** Outline(): width 3, colour black, alpha 255, each a single-point curve. */
  function DefaultParams(): (p: Params)
    ensures p == Params(Constant(3.0), Constant(0.0), Constant(0.0), Constant(0.0), Constant(255.0))
  {
    Params(Constant(3.0), Constant(0.0), Constant(0.0), Constant(0.0), Constant(255.0))
  }

  /** The documented ranges: width in 0..1000, each colour channel in 0..255. */
  ghost predicate InRange(p: Params, eval: Evaluator, frame: int)
  {
    0.0 <= eval(p.width, frame) <= 1000.0 &&
    0.0 <= eval(p.red, frame) <= 255.0 &&
    0.0 <= eval(p.green, frame) <= 255.0 &&
    0.0 <= eval(p.blue, frame) <= 255.0 &&
    0.0 <= eval(p.alpha, frame) <= 255.0
  }

  /**
   * sigma: the width divided by 3, truncated toward zero to an int. Within the
   * documented width range it lies in 0..333.
   */
  function Sigma(width: real): (s: int)
    ensures 0.0 <= width ==> 3.0 * s as real <= width < 3.0 * (s + 1) as real
    ensures width < 0.0 ==> 3.0 * (s - 1) as real < width <= 3.0 * s as real
    ensures 0.0 <= width <= 1000.0 ==> 0 <= s <= 333
  {
    Trunc(width / 3.0)
  }

  /**
   * b is what a channel value v becomes: truncated to an int, then saturated to
   * 0..255 when the CV_8UC4 matrix is filled from the cv::Scalar.
   */
  predicate Saturates(b: Byte, v: real)
  {
    (v < 0.0 ==> b == 0) &&
    (v >= 255.0 ==> b == 255) &&
    (0.0 <= v <= 255.0 ==> b as real <= v < b as real + 1.0)
  }

  /** Two bytes that both saturate the same value are equal. */
  lemma SaturatesUnique(b: Byte, c: Byte, v: real)
    requires Saturates(b, v) && Saturates(c, v)
    ensures b == c
  {
  }

  /** A colour channel: its curve value converted to int, then saturated into a byte. */
  function ChannelByte(v: real): (b: Byte)
    ensures Saturates(b, v)
  {
    var n := Trunc(v);
    if n < 0 then 0 else if n > 255 then 255 else n
  }

  /** The solid colour of the outline at a frame, in the matrix's channel order. */
  function OutlineColour(p: Params, eval: Evaluator, frame: int): (c: Pixel)
    ensures Saturates(c.red, eval(p.red, frame))
    ensures Saturates(c.green, eval(p.green, frame))
    ensures Saturates(c.blue, eval(p.blue, frame))
    ensures Saturates(c.alpha, eval(p.alpha, frame))
  {
    Pixel(ChannelByte(eval(p.blue, frame)), ChannelByte(eval(p.green, frame)),
          ChannelByte(eval(p.red, frame)), ChannelByte(eval(p.alpha, frame)))
  }

  /** With flat curves the defaults give sigma 1 and opaque black. */
  lemma DefaultsAtAnyFrame(eval: Evaluator, frame: int)
    requires HoldsConstants(eval)
    ensures InRange(DefaultParams(), eval, frame)
    ensures Sigma(eval(DefaultParams().width, frame)) == 1
    ensures OutlineColour(DefaultParams(), eval, frame) == OPAQUE_BLACK
  {
    assert eval(Constant(3.0), frame) == 3.0;
    assert eval(Constant(0.0), frame) == 0.0;
    assert eval(Constant(255.0), frame) == 255.0;
  }

  // ---------------------------------------------------------------------------
  // JSON

  const KEYS: seq<string> := ["width", "red", "green", "blue", "alpha"]

  const INVALID_JSON := "JSON is invalid (missing keys or invalid data types)"

  /** JsonValue: the type tag and one serialised curve per parameter. */
  function ToJson(p: Params): (root: JsonObject)
    ensures root.Keys == {"type"} + set k | k in KEYS
    ensures root["type"] == Str("Outline")
    ensures forall k :: k in KEYS ==> root[k] == Curve(Field(p, k))
  {
    map["type" := Str(OUTLINE_INFO.className),
        "width" := Curve(p.width),
        "red" := Curve(p.red),
        "green" := Curve(p.green),
        "blue" := Curve(p.blue),
        "alpha" := Curve(p.alpha)]
  }

  function Field(p: Params, key: string): Keyframe
    requires key in KEYS
  {
    if key == "width" then p.width
    else if key == "red" then p.red
    else if key == "green" then p.green
    else if key == "blue" then p.blue
    else p.alpha
  }

  function WithField(p: Params, key: string, k: Keyframe): (q: Params)
    requires key in KEYS
    ensures Field(q, key) == k
    ensures forall other :: other in KEYS && other != key ==> Field(q, other) == Field(p, other)
  {
    if key == "width" then p.(width := k)
    else if key == "red" then p.(red := k)
    else if key == "green" then p.(green := k)
    else if key == "blue" then p.(blue := k)
    else p.(alpha := k)
  }

  /** The parameters after a JSON update, and whether every update succeeded. */
  datatype Applied = Applied(params: Params, ok: bool)

  /**
   * One `if (!root[key].isNull()) key.SetJsonValue(root[key])` step: a null value
   * changes nothing; a value that is not a curve throws, and the steps after it
   * never run.
   */
  function Step(a: Applied, root: JsonObject, key: string): (r: Applied)
    requires key in KEYS
    ensures r.ok <==> a.ok && (Member(root, key) == Null || Member(root, key).Curve?)
    ensures !r.ok ==> r.params == a.params
    ensures forall other :: other in KEYS && other != key ==> Field(r.params, other) == Field(a.params, other)
    ensures Member(root, key) == Null ==> r == a
    ensures r.ok && Member(root, key) != Null ==> Field(r.params, key) == Member(root, key).k
  {
    if !a.ok then a
    else
      var v := Member(root, key);
      if v == Null then a
      else match KeyframeFromJson(v)
        case None => Applied(a.params, false)
        case Some(k) => Applied(WithField(a.params, key, k), true)
  }

  /**
   * SetJsonValue on the parameters: the five keys in the order the source reads
   * them. It succeeds exactly when every key holding a value holds a curve, and
   * then it replaces exactly the parameters whose keys hold a value.
   */
  function ApplyJson(p: Params, root: JsonObject): (r: Applied)
    ensures r.ok <==> forall key :: key in KEYS ==> Member(root, key) == Null || Member(root, key).Curve?
    ensures r.ok ==> forall key :: key in KEYS ==>
      Field(r.params, key) == (if Member(root, key) == Null then Field(p, key) else Member(root, key).k)
  {
    Step(Step(Step(Step(Step(Applied(p, true), root, "width"), root, "red"), root, "green"), root, "blue"), root, "alpha")
  }

  /** Loading the JSON of p gives back p, whatever the parameters were before. */
  lemma JsonRoundTrip(p: Params, before: Params)
    ensures ApplyJson(before, ToJson(p)) == Applied(p, true)
  {
  }

  /** A key that holds no value keeps its parameter, even when a later key fails. */
  lemma NullKeyUntouched(p: Params, root: JsonObject, key: string)
    requires key in KEYS && Member(root, key) == Null
    ensures Field(ApplyJson(p, root).params, key) == Field(p, key)
  {
  }

  /** A JSON object holding only "red" replaces the red curve and nothing else. */
  lemma OnlyRedReplaced(p: Params, k: Keyframe)
    ensures ApplyJson(p, map["red" := Curve(k)]) == Applied(p.(red := k), true)
  {
  }

  // ---------------------------------------------------------------------------
  // Property descriptors

  /** The arguments of one add_property_json call. */
  datatype Property = Property(name: string, value: real, kind: string, memo: string,
                               keyframe: Keyframe, min: int, max: int, readonly: bool, frame: int)

  /** PropertiesJSON: one descriptor per parameter, evaluated at the frame. */
  function Properties(p: Params, eval: Evaluator, frame: int): (props: map<string, Property>)
    ensures props.Keys == set k | k in KEYS
    ensures forall key :: key in KEYS ==>
      props[key].value == eval(Field(p, key), frame) && props[key].keyframe == Field(p, key) &&
      props[key].kind == "float" && !props[key].readonly && props[key].frame == frame &&
      props[key].min == 0 && props[key].max == (if key == "width" then 1000 else 255)
  {
    map["width" := Property("Width", eval(p.width, frame), "float", "", p.width, 0, 1000, false, frame),
        "red" := Property("Red", eval(p.red, frame), "float", "", p.red, 0, 255, false, frame),
        "green" := Property("Green", eval(p.green, frame), "float", "", p.green, 0, 255, false, frame),
        "blue" := Property("Blue", eval(p.blue, frame), "float", "", p.blue, 0, 255, false, frame),
        "alpha" := Property("Alpha", eval(p.alpha, frame), "float", "", p.alpha, 0, 255, false, frame)]
  }

  // ---------------------------------------------------------------------------
  // The effect object

  /** The effect description fields init_effect_details sets. */
  datatype EffectInfo = EffectInfo(className: string, name: string, description: string,
                                   hasAudio: bool, hasVideo: bool)

  const OUTLINE_INFO := EffectInfo("Outline", "Outline",
    "Add outline around the image with transparent background.", false, true)

  class Outline {
    var width: Keyframe
    var red: Keyframe
    var green: Keyframe
    var blue: Keyframe
    var alpha: Keyframe
    var info: EffectInfo

    /** The effect's animatable state: exactly its five curves. */
    function Parameters(): Params
      reads this
    {
      Params(width, red, green, blue, alpha)
    }

    /** Outline(): the blank constructor used before loading JSON. */
    constructor Blank()
      ensures Parameters() == DefaultParams() && info == OUTLINE_INFO
    {
      width, red, green, blue, alpha := Constant(3.0), Constant(0.0), Constant(0.0), Constant(0.0), Constant(255.0);
      info := OUTLINE_INFO;
    }

    constructor (width: Keyframe, red: Keyframe, green: Keyframe, blue: Keyframe, alpha: Keyframe)
      ensures Parameters() == Params(width, red, green, blue, alpha) && info == OUTLINE_INFO
    {
      this.width, this.red, this.green, this.blue, this.alpha := width, red, green, blue, alpha;
      info := OUTLINE_INFO;
    }

    /**
     * GetFrame(frame, frame_number): overwrites the frame's image in place with
     * the outlined pixels and returns the same frame.
     */
    method GetFrame(frame: Frame, frameNumber: int, eval: Evaluator, blur: Blur) returns (r: Frame)
      requires frame.image.Valid()
      requires KeepsSize(blur)
      modifies frame.image
      ensures r == frame && frame.image == old(frame.image) && frame.image.Valid()
      ensures frame.image.width == old(frame.image.width) && frame.image.height == old(frame.image.height)
      ensures frame.image.pixels[..] ==
        Outlined(old(frame.image.pixels[..]), frame.image.width, Sigma(eval(width, frameNumber)),
                 OutlineColour(Parameters(), eval, frameNumber), blur)
    {
      var image := frame.image;
      var n := image.pixels.Length;
      var sigma := Sigma(eval(width, frameNumber));
      var colour := OutlineColour(Parameters(), eval, frameNumber);
      ghost var original := image.pixels[..];

      var alphaMask := SplitAlpha(image.pixels);
      ThresholdInPlace(alphaMask, 254, 255);

      var blurred := blur(alphaMask[..], image.width, sigma);
      var outlineMask := new Byte[n](i requires 0 <= i < n => blurred[i]);
      assert outlineMask[..] == blurred;
      ThresholdInPlace(outlineMask, 0, 255);

      var finalImage := new Pixel[n](_ => TRANSPARENT);
      var solid := new Pixel[n](_ => colour);
      CopyMasked(solid, finalImage, outlineMask);
      CopyMasked(image.pixels, finalImage, alphaMask);

      image.pixels := finalImage;
      r := frame;
    }

    /** GetFrame(frame_number): the two-argument GetFrame on a new blank frame. */
    method GetFrameFromNumber(frameNumber: int, eval: Evaluator, blur: Blur) returns (r: Frame)
      requires KeepsSize(blur)
      ensures fresh(r) && r.image.Valid()
      ensures r.number == 1
      ensures r.image.width == 1 && r.image.height == 1
      ensures r.image.pixels[..] ==
        Outlined([OPAQUE_BLACK], 1, Sigma(eval(width, frameNumber)), OutlineColour(Parameters(), eval, frameNumber), blur)
    {
      var blank := new Frame.Blank();
      r := GetFrame(blank, frameNumber, eval, blur);
    }

    /** JsonValue: the effect's JSON object. */
    function JsonValue(): (root: JsonObject)
      reads this
      ensures forall before :: ApplyJson(before, root) == Applied(Parameters(), true)
    {
      forall before ensures ApplyJson(before, ToJson(Parameters())) == Applied(Parameters(), true) {
        JsonRoundTrip(Parameters(), before);
      }
      ToJson(Parameters())
    }

    /** SetJsonValue: loads each curve whose key holds a value, in source order. */
    method SetJsonValue(root: JsonObject) returns (ok: bool)
      modifies this
      ensures Parameters() == ApplyJson(old(Parameters()), root).params
      ensures ok == ApplyJson(old(Parameters()), root).ok
      ensures info == old(info)
    {
      ok := false;
      var v := Member(root, "width");
      if v != Null {
        match KeyframeFromJson(v)
        case None => return;
        case Some(k) => width := k;
      }
      v := Member(root, "red");
      if v != Null {
        match KeyframeFromJson(v)
        case None => return;
        case Some(k) => red := k;
      }
      v := Member(root, "green");
      if v != Null {
        match KeyframeFromJson(v)
        case None => return;
        case Some(k) => green := k;
      }
      v := Member(root, "blue");
      if v != Null {
        match KeyframeFromJson(v)
        case None => return;
        case Some(k) => blue := k;
      }
      v := Member(root, "alpha");
      if v != Null {
        match KeyframeFromJson(v)
        case None => return;
        case Some(k) => alpha := k;
      }
      ok := true;
    }

    /** SetJson: parses the text and loads it; any failure becomes InvalidJSON. */
    method SetJson(value: string, parse: Parser) returns (res: Outcome)
      modifies this
      ensures parse(value).None? ==> Parameters() == old(Parameters()) && res == Fail(INVALID_JSON)
      ensures parse(value).Some? ==>
        var a := ApplyJson(old(Parameters()), parse(value).value);
        Parameters() == a.params && res == (if a.ok then Pass else Fail(INVALID_JSON))
      ensures info == old(info)
    {
      match parse(value)
      case None =>
        res := Fail(INVALID_JSON);
      case Some(root) =>
        var ok := SetJsonValue(root);
        res := if ok then Pass else Fail(INVALID_JSON);
    }

    /** PropertiesJSON: the descriptors of the five curves at a frame. */
    function PropertiesJson(eval: Evaluator, frame: int): (props: map<string, Property>)
      reads this
      ensures props.Keys == set k | k in KEYS
      ensures forall key :: key in KEYS ==>
        props[key].value == eval(Field(Parameters(), key), frame) && props[key].keyframe == Field(Parameters(), key) &&
        props[key].kind == "float" && !props[key].readonly && props[key].frame == frame &&
        props[key].min == 0 && props[key].max == (if key == "width" then 1000 else 255)
    {
      Properties(Parameters(), eval, frame)
    }
  }
}
