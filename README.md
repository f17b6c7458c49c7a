# libopenshot: Outline effect, Fraction and QtTextReader in Dafny

This project models three parts of libopenshot, the video-editing library behind
OpenShot, and proves properties of the models.

- **Outline** (`src/effects/Outline.cpp`, `Outline.h`) is an effect that draws a
  coloured outline around the opaque part of a frame's image. The effect takes the
  alpha channel and thresholds it at 254, giving the *alpha mask*. It blurs that
  mask with sigma = width / 3 and thresholds the blur at 0, giving the
  *outline mask*. The result starts fully transparent. The solid outline colour is
  copied through the outline mask, and then the original pixels are copied through
  the alpha mask. The effect is a class with five animated parameters (width, red,
  green, blue, alpha). It also has JSON serialisation and property descriptors.
  `GetFrame` overwrites the frame's image in place, so the model keeps the pixels
  in an `array` that the method replaces, and the per-pixel loops are methods.
  Each loop is proved against a function on sequences.
- **Fraction** (`src/Fraction.cpp`) is a value type holding a numerator and a
  denominator. The model covers its constructors, Euclid's greatest common
  divisor as a loop, `Reduce`, `Reciprocal` and `ToInt`. C++'s truncating `/`
  and `%` and its `round` are written out in `CppArith`. The GCD loop is proved to
  compute a greatest common divisor in the divisibility sense. `Reduce` is proved
  to keep the value and to leave the numerator and denominator coprime.
- **QtTextReader** (`src/QtTextReader.cpp`) is a reader that renders a line of
  text into an image and hands that image out as every frame. It is a class with
  an open/closed state. `Open` creates the image and fills in the `ReaderInfo`
  stream description: 30 fps, one hour, 108000 frames, and a display ratio equal
  to the size in lowest terms. `Close` drops the image. The model also covers
  gravity-to-alignment mapping, `GetFrame`'s choice of size and frame number, and
  JSON load and save. Loading JSON on an open reader reopens it.

Things outside the core are parameters. Whether Qt's painter could begin on the
image is the `beginOk` argument. Keyframe evaluation is an `Evaluator` function.
OpenCV's Gaussian blur is a `Blur` function that keeps the mask's length. JSON
text parsing is a `Parser` function. A jsoncpp conversion that throws is a failed
`Applied` result: the fields assigned before it keep their new values, and no
later field is read.

Files: `outcomes.dfy` (Option, Outcome), `cpp_arith.dfy`, `fraction.dfy`,
`keyframes.dfy`, `json.dfy` (JSON values and jsoncpp's `asInt`/`asString`),
`outline.dfy`, `reader_info.dfy`, `text_reader.dfy`.

## Model

| member | source | states |
|---|---|---|
| CppArith.Quot | src/Fraction.cpp:89-90 | C++ integer division: the quotient is 0 or has the sign of the operands' product |
| CppArith.QuotMagnitude | src/Fraction.cpp:89-90 | the quotient's magnitude is the magnitudes' quotient; with the sign clause, `/` truncates toward zero |
| CppArith.Rem | src/Fraction.cpp:78 | C++ `%`: the remainder is smaller than the divisor in magnitude, equals the magnitude remainder, and takes the dividend's sign |
| CppArith.Trunc | src/effects/Outline.cpp:53-57 | a double converted to int truncates toward zero: the result's magnitude is within 1 below the input's magnitude, with the input's sign |
| CppArith.Round | src/Fraction.cpp:65 | C `round`: the result is within one half of the input, and a half rounds away from zero |
| Fractions.EuclidGcdIsGcd | src/Fraction.cpp:69-82 | Euclid's iteration with a truncating remainder yields a GCD: it divides both inputs and every common divisor divides it |
| Fractions.EuclidGcdZero | src/Fraction.cpp:76-81 | the iteration yields 0 exactly when numerator and denominator are both 0 |
| Fractions.EuclidGcdGreatest | src/Fraction.cpp:69-82 | for inputs not both 0 the result is nonzero, divides both, and no common divisor is larger in magnitude |
| Fractions.Fraction.GreatestCommonDenominator | src/Fraction.cpp:69-82 | the while loop returns the Euclid GCD of num and den, which satisfies the GCD property and agrees in magnitude with every other GCD of the pair; with den 0 it returns num |
| Fractions.Fraction.Reduced | src/Fraction.cpp:84-91 | dividing by the GCD keeps the fraction's value (equal cross products), leaves num and den coprime, and keeps a zero denominator zero |
| Fractions.Fraction.Reduce | src/Fraction.cpp:84-91 | the method (GCD loop, then two truncating divisions) produces the reduced fraction |
| Fractions.ReduceNegativeExample | src/Fraction.cpp:84-91 | the GCD of 4 and -6 comes out as -2, so 4/-6 reduces to -2/3 and the sign moves to the numerator |
| Fractions.Fraction.Reciprocal | src/Fraction.cpp:94-98 | the reciprocal swaps num and den; for a nonzero fraction, its value times the original's value is 1 |
| Fractions.ReciprocalInvolution | src/Fraction.cpp:94-98 | taking the reciprocal twice gives back the fraction |
| Fractions.Fraction.ToInt | src/Fraction.cpp:63-66 | the result is the value num/den rounded to the nearest integer, with halves rounded away from zero |
| Fractions.ToIntExamples | src/Fraction.cpp:63-66 | 30000/1001 gives 30; 1/2 gives 1; -1/2 gives -1 |
| Fractions.DefaultFraction | src/Fraction.cpp:37 | the default fraction is exactly 1/1, so its value is 1 |
| Fractions.FromPair | src/Fraction.cpp:39-40 | the pair constructor takes num from the pair's first element and den from its second |
| Fractions.FromMap | src/Fraction.cpp:42-43 | the map constructor reads "num" and "den", and a missing key reads as 0 |
| Fractions.FromVector | src/Fraction.cpp:45-46 | the vector constructor equals the pair constructor on the first two elements |
| OutlineEffect.AlphaMask | src/effects/Outline.cpp:63-66 | the alpha mask is 255 exactly where the pixel's alpha is 255, and 0 elsewhere |
| OutlineEffect.OutlineMask | src/effects/Outline.cpp:70-72 | the outline mask is 255 exactly where the blurred mask is nonzero |
| OutlineEffect.Composite | src/effects/Outline.cpp:74-81 | the result has one pixel per input pixel, built from a transparent start, the colour through the outline mask, and the image through the alpha mask |
| OutlineEffect.Outlined | src/effects/Outline.cpp:62-81 | the pixels GetFrame leaves: the composite of the image with the blurred alpha mask, one pixel per input pixel |
| OutlineEffect.MasksBinary | src/effects/Outline.cpp:66-72 | both masks hold only 0 and 255 |
| OutlineEffect.CompositeAt | src/effects/Outline.cpp:74-81 | each output pixel is the original pixel if it is fully opaque, else the outline colour if the blur reached it, else transparent |
| OutlineEffect.OpaquePixelsKept | src/effects/Outline.cpp:79-81 | every fully opaque pixel comes through unchanged, drawn on top of the outline |
| OutlineEffect.RingPainted | src/effects/Outline.cpp:79-81 | every pixel that is not fully opaque but was reached by the blur gets the outline colour |
| OutlineEffect.NoOpaquePixelsGivesTransparent | src/effects/Outline.cpp:62-81 | an image with no fully opaque pixel comes out fully transparent when the blur maps an all-zero mask to itself |
| OutlineEffect.SplitAlpha | src/effects/Outline.cpp:63-65 | the loop returns a new array holding each pixel's alpha byte |
| OutlineEffect.ThresholdInPlace | src/effects/Outline.cpp:66 | the loop applies a binary threshold in place: bytes above thresh become maxval, the rest 0 |
| OutlineEffect.CopyMasked | src/effects/Outline.cpp:80-81 | copyTo with a mask: where the mask is nonzero dst takes src's pixel, elsewhere dst is unchanged |
| OutlineEffect.Sigma | src/effects/Outline.cpp:53 | sigma is the width divided by 3 and truncated toward zero: 3*sigma <= width < 3*(sigma+1) for a non-negative width, mirrored for a negative one; 0..333 within the documented range |
| OutlineEffect.OutlineColour | src/effects/Outline.cpp:54-77 | each channel is its curve value truncated to an int, then saturated to 0..255 when it fills the 8-bit matrix: negative values give 0, values of 255 and above give 255 |
| OutlineEffect.ChannelByte | src/effects/Outline.cpp:54-77 | one channel: its value converted to int and saturated into a byte, as `Saturates` pins down |
| OutlineEffect.DefaultParams | src/effects/Outline.cpp:19 | the blank constructor's curves: width 3, red, green and blue 0, alpha 255 |
| OutlineEffect.DefaultsAtAnyFrame | src/effects/Outline.cpp:19 | with constant curves the defaults are within the documented ranges and give sigma 1 and opaque black |
| OutlineEffect.Outline.Blank | src/effects/Outline.cpp:19-22 | the blank constructor sets the default curves and the effect description |
| OutlineEffect.Outline.constructor | src/effects/Outline.cpp:25-30 | the full constructor stores the five curves and sets the effect description |
| OutlineEffect.Outline.GetFrame | src/effects/Outline.cpp:48-91 | for any curve values, the frame's image object is kept and overwritten in place with the outlined pixels for that frame's sigma and colour; its size is unchanged and the same frame is returned |
| OutlineEffect.Outline.GetFrameFromNumber | src/effects/Outline.h:73 | the one-argument form outlines a new blank frame numbered 1, 1x1 opaque black |
| OutlineEffect.ToJson | src/effects/Outline.cpp:111-124 | the JSON object holds exactly "type" and the five parameter keys; "type" is "Outline" and each key holds its parameter's curve |
| OutlineEffect.Step | src/effects/Outline.cpp:150-159 | one key: it fails exactly when an earlier key failed or its value is not a curve; a null key changes nothing; a failure keeps the parameters; other parameters are kept; a present curve is stored |
| OutlineEffect.JsonRoundTrip | src/effects/Outline.cpp:111-160 | loading an effect's JSON restores exactly its parameters, whatever they were before |
| OutlineEffect.ApplyJson | src/effects/Outline.cpp:144-160 | the load succeeds exactly when every key holding a value holds a curve; it then replaces exactly the present keys' parameters and keeps the others |
| OutlineEffect.NullKeyUntouched | src/effects/Outline.cpp:150-159 | a null or missing key leaves its parameter unchanged, even when a later key fails |
| OutlineEffect.OnlyRedReplaced | src/effects/Outline.cpp:152-153 | an object holding only "red" replaces the red curve and nothing else |
| OutlineEffect.Outline.JsonValue | src/effects/Outline.cpp:111-124 | the JSON, loaded into any effect, reproduces this effect's parameters |
| OutlineEffect.Outline.SetJsonValue | src/effects/Outline.cpp:144-160 | the method assigns the curves in key order and stops at the first value that is not a curve, as the load function describes |
| OutlineEffect.Outline.SetJson | src/effects/Outline.cpp:127-141 | a parse failure or a load failure gives "JSON is invalid (missing keys or invalid data types)"; otherwise the JSON is loaded |
| OutlineEffect.Properties | src/effects/Outline.cpp:163-177 | one float descriptor per parameter, holding the curve's value at the frame; each can be edited; min 0; max 1000 for width and 255 for the channels |
| OutlineEffect.Outline.PropertiesJson | src/effects/Outline.cpp:163-177 | one "float" descriptor per curve, editable, holding the curve and its value at the frame, min 0 and max 1000 for width or 255 for the channels |
| TextReader.AlignmentIsGridCell | src/QtTextReader.cpp:91-121 | gravity g in 0..8 maps to the horizontal flag of column g%3 combined with the vertical flag of row g/3; CENTER is centred both ways; any other value gives 0 |
| TextReader.AlignmentInjective | src/QtTextReader.cpp:91-121 | different gravities give different alignment flags |
| TextReader.AlignmentFlag | src/QtTextReader.cpp:91-121 | the switch gives nonzero flags exactly for the nine gravities |
| TextReader.NewImage | src/QtTextReader.cpp:70-71 | the new image is filled with the background colour and has no drawing; it is width x height when both are positive, and 0 x 0 otherwise |
| TextReader.RenderedImage | src/QtTextReader.cpp:78-124 | the painted image has the new image's size and fill; its drawing has the offsets, the configured box, the gravity's flags, the text, the font and the text colour; it has a background exactly when the text background colour is not empty |
| TextReader.OpenedInfo | src/QtTextReader.cpp:129-152 | Open sets video on, audio off, the size, 30 fps, timebase 1/30, one hour, 108000 frames, codec "QImage", and the reduced display ratio; every other field is unchanged |
| TextReader.ClosedInfo | src/QtTextReader.cpp:171-172 | Close empties both codec names and keeps every other field |
| TextReader.DisplayRatioIsSize | src/QtTextReader.cpp:144-152 | the display ratio equals width:height, in lowest terms, with a nonzero denominator |
| TextReader.DefaultDisplayRatio | src/QtTextReader.cpp:144-152 | the default 1024x768 image has display ratio 4/3 |
| TextReader.QtTextReader.Default | src/QtTextReader.cpp:40-45 | the defaults are 1024x768, blank text, white on black, centred; afterwards the reader is closed, with info populated when painting could begin |
| TextReader.QtTextReader.constructor | src/QtTextReader.cpp:47-53 | stores the given settings, then opens and closes the reader |
| TextReader.QtTextReader.SetTextBackgroundColor | src/QtTextReader.cpp:55-61 | stores the colour, then opens and closes, so the reader ends up closed |
| TextReader.QtTextReader.Open | src/QtTextReader.cpp:64-157 | an open reader is unchanged. On a closed one: if the painter fails, only a blank image is left; otherwise the rendered image, the populated info and the open state |
| TextReader.QtTextReader.Close | src/QtTextReader.cpp:160-174 | an open reader becomes closed, without image and codec names; a closed one is unchanged |
| TextReader.QtTextReader.GetFrame | src/QtTextReader.cpp:177-197 | with an image, frame requested_frame at the image's size carrying the image; without one, an empty frame 1 of 640x480; always the background colour, no samples, 2 channels |
| TextReader.ToJson | src/QtTextReader.cpp:207-225 | the JSON holds the type tag "QtTextReader" and each setting under its key |
| TextReader.Step | src/QtTextReader.cpp:263-282 | one member: it fails exactly when an earlier member failed or this one is not readable; a null member changes nothing; a failure keeps the settings; other settings are kept; a present member stores its converted value |
| TextReader.JsonRoundTrip | src/QtTextReader.cpp:207-290 | loading a reader's JSON restores exactly its settings, whatever they were before |
| TextReader.NullKeyUntouched | src/QtTextReader.cpp:262-282 | a null or missing member leaves its setting unchanged, even when a later member fails |
| TextReader.PresentKeyAssigned | src/QtTextReader.cpp:262-282 | in a successful load, a member holding a value converts, and its setting ends up as that converted value |
| TextReader.ApplyJson | src/QtTextReader.cpp:262-282 | loading succeeds exactly when each member is absent, null, or convertible by asInt or asString |
| TextReader.NegativeNumberAsText | src/QtTextReader.cpp:271-272 | asString on the number -12 gives "-12" |
| TextReader.NumberReadAsText | src/QtTextReader.cpp:271-272 | a number under "text" is stored as its decimal string, and the load succeeds |
| TextReader.TextReadAsNumberFails | src/QtTextReader.cpp:263-264 | a string under "width" makes the load fail and leaves every setting unchanged |
| TextReader.QtTextReader.JsonValue | src/QtTextReader.cpp:207-225 | the JSON, loaded into any reader, reproduces this reader's settings |
| TextReader.QtTextReader.ReadMember | src/QtTextReader.cpp:263-282 | one member's read: a null member changes nothing; a conversion that throws reports failure; otherwise the setting is assigned |
| TextReader.QtTextReader.SetJsonValue | src/QtTextReader.cpp:257-290 | the settings and the outcome are as the load function describes; an open reader is closed and reopened after a successful load, so its image and info follow the new settings |
| TextReader.QtTextReader.SetJson | src/QtTextReader.cpp:228-254 | text that does not parse gives "JSON could not be parsed (or is invalid)" and changes nothing. Otherwise the settings follow the load, and a failed load gives "JSON is invalid (missing keys or invalid data types)". A successful load on an open reader closes and reopens it; in every other case the state is unchanged |
| JsonModel.DecimalString | src/QtTextReader.cpp:271-280 | asString on a number writes its decimal form: a leading '-' exactly for a negative number, then the canonical digits of its magnitude: "0" for zero, no leading zero otherwise, reading back as the magnitude |

## Left out

- Fractions.Fraction.Reduce: `Fraction` is modelled as a value, so `Reduce` returns the reduced fraction and the caller stores it. The in-place update of the two fields is not modelled.
- Integer width: `int` and `int64_t` are unbounded here. 32-bit overflow is not modelled, for example in `width * pixel_ratio.num` or in `GreatestCommonDenominator` on `INT_MIN`.
- OutlineEffect.OutlineColour: a curve value too large for an `int` makes the C++ conversion undefined; the model truncates the exact value and then saturates it.
- OutlineEffect.ApplyJson: `Keyframe::SetJsonValue` is not part of this model. The model assumes that a value other than a serialised curve makes it throw, so the load stops there. It also assumes that the throwing call leaves that key's curve as it was, so a failed load keeps every parameter; a loader that cleared its points before reading would leave that curve empty instead. These assumptions also underlie `OutlineEffect.Step`, `Outline.SetJsonValue` and `Outline.SetJson`.
- Fractions.Fraction.ToInt: requires a nonzero denominator. With den == 0 the source converts an infinite or NaN double to `int`, which is undefined behaviour in C++, so there is no result to model.
- Floating point: doubles are exact reals. `ToInt` rounds the exact quotient num/den, and the 3600 * 30 product in `Open` is exact.
- `Fraction::ToFloat` and `ToDouble` are only used through `Value()`, the exact quotient.
- OpenCV internals: `GaussianBlur` is a parameter that only has to keep the mask's length. Its kernel, its border handling and any exception it raises are not modelled. The QImage/cv::Mat conversions (`QImageToARGBCvMat`, `ARGBCvMatToQImage`, and the premultiplied RGBA format change) are not modelled either. Pixels are kept as (blue, green, red, alpha) bytes, and properties are stated on `final_image`.
- Keyframe evaluation (`Keyframe::GetValue`) and keyframe JSON are outside this model. Evaluation is a parameter, and a keyframe in JSON is an opaque `Curve` value.
- Parent classes: the fields that `EffectBase` and `ReaderBase` write to and read from JSON, `BasePropertiesJSON`, and `InitEffectInfo` are not modelled. `ReaderBase`'s constructor is not part of this model, so the initial `info` is arbitrary.
- JSON text: jsoncpp's parser and `toStyledString` are outside this model. Parsing is a parameter, and the model works on parsed objects. JSON booleans, reals, arrays and non-object roots are not represented.
- Qt: painting itself, `QFont`, `QColor` and `QPen` are not modelled. The rendered image records the `drawText` call's arguments instead of pixels. A font is an abstract description string (the default is written "Arial,10", not the exact text `QFont::toString` produces), and `QFont::fromString` is modelled as storing the string; its failure case is ignored. `QImage` of non-positive size is the null image, 0 by 0. A failed `painter.begin` is the `beginOk` argument, and `Open` may only report success for a positive size.
- `Frame` and `Frame::AddImage` are outside this model. `GetFrame` on QtTextReader returns the Frame constructor's arguments and the image handle. The blank frame in Outline's one-argument `GetFrame` is taken to be a 1x1 opaque black image.
- The descriptive `Json()` string methods only format `JsonValue()` and are not modelled separately.
