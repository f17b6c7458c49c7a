/**
 * QtTextReader: a reader that renders one line of text into an image and serves
 * that image as every frame. It is open or closed; opening renders the image and
 * fills in the stream description, closing drops the image. Rendering itself is
 * not part of this model: whether the painter could begin is a parameter, and the
 * image records its size, its fill colour and the text drawing it received.
 */
module TextReader {
  import opened Outcomes
  import opened CppArith
  import opened Fractions
  import opened JsonModel
  import opened ReaderBase

  // ---------------------------------------------------------------------------
  // Gravity and text alignment

  // GravityType, in declaration order
  const GRAVITY_TOP_LEFT := 0
  const GRAVITY_TOP := 1
  const GRAVITY_TOP_RIGHT := 2
  const GRAVITY_LEFT := 3
  const GRAVITY_CENTER := 4
  const GRAVITY_RIGHT := 5
  const GRAVITY_BOTTOM_LEFT := 6
  const GRAVITY_BOTTOM := 7
  const GRAVITY_BOTTOM_RIGHT := 8

  // Qt::AlignmentFlag values
  const ALIGN_LEFT: bv32 := 0x1
  const ALIGN_RIGHT: bv32 := 0x2
  const ALIGN_HCENTER: bv32 := 0x4
  const ALIGN_TOP: bv32 := 0x20
  const ALIGN_BOTTOM: bv32 := 0x40
  const ALIGN_VCENTER: bv32 := 0x80
  const ALIGN_CENTER: bv32 := 0x84

  /**
   * The switch in Open: the alignment flags for a gravity. A value outside the
   * enumeration matches no case and leaves the flags 0.
   */
  function AlignmentFlag(gravity: int): (flag: bv32)
    ensures flag != 0 <==> 0 <= gravity < 9
  {
    if gravity == GRAVITY_TOP_LEFT then ALIGN_LEFT | ALIGN_TOP
    else if gravity == GRAVITY_TOP then ALIGN_HCENTER | ALIGN_TOP
    else if gravity == GRAVITY_TOP_RIGHT then ALIGN_RIGHT | ALIGN_TOP
    else if gravity == GRAVITY_LEFT then ALIGN_VCENTER | ALIGN_LEFT
    else if gravity == GRAVITY_CENTER then ALIGN_CENTER
    else if gravity == GRAVITY_RIGHT then ALIGN_VCENTER | ALIGN_RIGHT
    else if gravity == GRAVITY_BOTTOM_LEFT then ALIGN_LEFT | ALIGN_BOTTOM
    else if gravity == GRAVITY_BOTTOM then ALIGN_HCENTER | ALIGN_BOTTOM
    else if gravity == GRAVITY_BOTTOM_RIGHT then ALIGN_RIGHT | ALIGN_BOTTOM
    else 0
  }

  /** The horizontal flag of a column of the 3x3 grid: left, centre, right. */
  function ColumnFlag(column: int): bv32
    requires 0 <= column < 3
  {
    [ALIGN_LEFT, ALIGN_HCENTER, ALIGN_RIGHT][column]
  }

  /** The vertical flag of a row of the 3x3 grid: top, middle, bottom. */
  function RowFlag(row: int): bv32
    requires 0 <= row < 3
  {
    [ALIGN_TOP, ALIGN_VCENTER, ALIGN_BOTTOM][row]
  }

  /**
   * The nine gravities are the cells of a 3x3 grid read row by row, and each maps
   * to one horizontal flag combined with one vertical flag; GRAVITY_CENTER is
   * centred on both axes, and any other value gives no flag.
   */
  lemma AlignmentIsGridCell(gravity: int)
    ensures 0 <= gravity < 9 ==>
      AlignmentFlag(gravity) == ColumnFlag(gravity % 3) | RowFlag(gravity / 3)
    ensures AlignmentFlag(GRAVITY_CENTER) == ALIGN_HCENTER | ALIGN_VCENTER
    ensures !(0 <= gravity < 9) ==> AlignmentFlag(gravity) == 0
  {
  }

  /** Different gravities give different alignments. */
  lemma AlignmentInjective(g1: int, g2: int)
    requires 0 <= g1 < 9 && 0 <= g2 < 9 && g1 != g2
    ensures AlignmentFlag(g1) != AlignmentFlag(g2)
  {
  }

  // ---------------------------------------------------------------------------
  // The rendered image

  /** The drawText call: the box, the alignment, the text and how it is painted. */
  datatype TextDrawing = TextDrawing(x: int, y: int, width: int, height: int, flags: bv32,
                                     text: string, font: string, pen: string, background: Option<string>)

  /** An image handle: its size, the colour it was filled with and what was drawn on it. */
  datatype TextImage = TextImage(width: int, height: int, fill: string, drawing: Option<TextDrawing>)

  /** The reader's configuration, as SetJsonValue reads and JsonValue writes it. */
  datatype Settings = Settings(width: int, height: int, xOffset: int, yOffset: int, text: string,
                               font: string, textColor: string, backgroundColor: string,
                               textBackgroundColor: string, gravity: int)

  /**
   * A new QImage of the configured size filled with the background colour; a
   * non-positive size gives Qt's null image, whose size is 0 by 0.
   */
  function NewImage(s: Settings): (img: TextImage)
    ensures img.drawing == None && img.fill == s.backgroundColor
    ensures s.width > 0 && s.height > 0 ==> img.width == s.width && img.height == s.height
    ensures !(s.width > 0 && s.height > 0) ==> img.width == 0 && img.height == 0
  {
    if s.width > 0 && s.height > 0 then TextImage(s.width, s.height, s.backgroundColor, None)
    else TextImage(0, 0, s.backgroundColor, None)
  }

  /** The image after the painter drew the text into it. */
  function RenderedImage(s: Settings): (img: TextImage)
    ensures img.width == NewImage(s).width && img.height == NewImage(s).height && img.fill == s.backgroundColor
    ensures img.drawing.Some?
    ensures var d := img.drawing.value;
      d.x == s.xOffset && d.y == s.yOffset && d.width == s.width && d.height == s.height &&
      d.flags == AlignmentFlag(s.gravity) && d.text == s.text && d.font == s.font && d.pen == s.textColor
    ensures img.drawing.value.background.Some? <==> s.textBackgroundColor != ""
    ensures img.drawing.value.background.Some? ==> img.drawing.value.background.value == s.textBackgroundColor
  {
    NewImage(s).(drawing := Some(TextDrawing(s.xOffset, s.yOffset, s.width, s.height, AlignmentFlag(s.gravity),
      s.text, s.font, s.textColor, if s.textBackgroundColor != "" then Some(s.textBackgroundColor) else None)))
  }

  // ---------------------------------------------------------------------------
  // The stream description Open fills in

  const DURATION := 3600.0

  /** What a successful Open promises about info for a width x height image. */
  ghost predicate Populated(info: ReaderInfo, width: int, height: int)
    requires width > 0 && height > 0
  {
    info.hasVideo && !info.hasAudio && info.fileSize == 0 &&
    info.width == width && info.height == height &&
    info.pixelRatio == Fraction(1, 1) && info.duration == DURATION &&
    info.fps == Fraction(30, 1) && info.videoTimebase == Fraction(1, 30) &&
    info.videoLength == 108000 &&
    info.displayRatio == Fraction(width, height).Reduced()
  }

  /** The display ratio of a width x height image: the size in lowest terms. */
  lemma DisplayRatioIsSize(info: ReaderInfo, width: int, height: int)
    requires width > 0 && height > 0 && Populated(info, width, height)
    ensures info.displayRatio.num * height == width * info.displayRatio.den
    ensures Coprime(info.displayRatio.num, info.displayRatio.den)
    ensures info.displayRatio.den != 0
  {
  }

  /** info after a successful Open; the fields Open does not set keep their values. */
  function OpenedInfo(info: ReaderInfo, width: int, height: int): (r: ReaderInfo)
    requires width > 0 && height > 0
    ensures Populated(r, width, height)
    ensures r.vcodec == "QImage" && r.acodec == info.acodec
    ensures r.(hasVideo := info.hasVideo, hasAudio := info.hasAudio, fileSize := info.fileSize,
               vcodec := info.vcodec, width := info.width, height := info.height,
               pixelRatio := info.pixelRatio, duration := info.duration, fps := info.fps,
               videoTimebase := info.videoTimebase, videoLength := info.videoLength,
               displayRatio := info.displayRatio) == info
  {
    var set1 := info.(hasAudio := false, hasVideo := true, fileSize := 0, vcodec := "QImage",
                      width := width, height := height, pixelRatio := Fraction(1, 1),
                      duration := DURATION, fps := Fraction(30, 1), videoTimebase := Fraction(1, 30));
    var length := Round(set1.duration * set1.fps.Value());
    assert length == 108000;
    set1.(videoLength := length,
          displayRatio := Fraction(set1.width * set1.pixelRatio.num, set1.height * set1.pixelRatio.den).Reduced())
  }

  /** info after Close: the codec names are cleared. */
  function ClosedInfo(info: ReaderInfo): (r: ReaderInfo)
    ensures r.vcodec == "" && r.acodec == ""
    ensures r.(vcodec := info.vcodec, acodec := info.acodec) == info
  {
    info.(vcodec := "", acodec := "")
  }

  /** The default 1024 x 768 text image has the 4:3 display ratio. */
  lemma DefaultDisplayRatio()
    ensures Fraction(1024, 768).Reduced() == Fraction(4, 3)
  {
    assert Rem(1024, 768) == 256;
    assert Rem(768, 256) == 0;
    assert EuclidGcd(768, 256) == 256;
    assert EuclidGcd(1024, 768) == 256;
  }

  // ---------------------------------------------------------------------------
  // JSON

  /** The members SetJsonValue reads, in the order it reads them. */
  datatype Key = Width | Height | XOffset | YOffset | Text | Font
               | TextColor | BackgroundColor | TextBackgroundColor | Gravity

  function Name(k: Key): string
  {
    match k
    case Width => "width"
    case Height => "height"
    case XOffset => "x_offset"
    case YOffset => "y_offset"
    case Text => "text"
    case Font => "font"
    case TextColor => "text_color"
    case BackgroundColor => "background_color"
    case TextBackgroundColor => "text_background_color"
    case Gravity => "gravity"
  }

  /** The members read with asInt(); the others are read with asString(). */
  predicate IsIntKey(k: Key)
  {
    k in {Width, Height, XOffset, YOffset, Gravity}
  }

  const UNPARSABLE_JSON := "JSON could not be parsed (or is invalid)"
  const INVALID_JSON := "JSON is invalid (missing keys or invalid data types)"

  /** A setting's value: a number for the int members, a string for the others. */
  datatype SettingValue = Number(i: int) | Chars(s: string)

  function Setting(s: Settings, k: Key): (v: SettingValue)
    ensures v.Number? <==> IsIntKey(k)
  {
    match k
    case Width => Number(s.width)
    case Height => Number(s.height)
    case XOffset => Number(s.xOffset)
    case YOffset => Number(s.yOffset)
    case Text => Chars(s.text)
    case Font => Chars(s.font)
    case TextColor => Chars(s.textColor)
    case BackgroundColor => Chars(s.backgroundColor)
    case TextBackgroundColor => Chars(s.textBackgroundColor)
    case Gravity => Number(s.gravity)
  }

  /** Two configurations that agree on every member are the same. */
  lemma SettingsExtensional(s: Settings, t: Settings)
    requires forall k :: Setting(s, k) == Setting(t, k)
    ensures s == t
  {
    assert Setting(s, Width) == Setting(t, Width);
    assert Setting(s, Height) == Setting(t, Height);
    assert Setting(s, XOffset) == Setting(t, XOffset);
    assert Setting(s, YOffset) == Setting(t, YOffset);
    assert Setting(s, Text) == Setting(t, Text);
    assert Setting(s, Font) == Setting(t, Font);
    assert Setting(s, TextColor) == Setting(t, TextColor);
    assert Setting(s, BackgroundColor) == Setting(t, BackgroundColor);
    assert Setting(s, TextBackgroundColor) == Setting(t, TextBackgroundColor);
    assert Setting(s, Gravity) == Setting(t, Gravity);
  }

  function Encode(v: SettingValue): Json
  {
    match v
    case Number(i) => Int(i)
    case Chars(t) => Str(t)
  }

  /** JsonValue: the type tag and one member per setting; the font as its description. */
  function ToJson(s: Settings): (root: JsonObject)
    ensures "type" in root && root["type"] == Str("QtTextReader")
    ensures forall k :: Member(root, Name(k)) == Encode(Setting(s, k))
  {
    map["type" := Str("QtTextReader"),
        "width" := Int(s.width), "height" := Int(s.height),
        "x_offset" := Int(s.xOffset), "y_offset" := Int(s.yOffset),
        "text" := Str(s.text), "font" := Str(s.font),
        "text_color" := Str(s.textColor), "background_color" := Str(s.backgroundColor),
        "text_background_color" := Str(s.textBackgroundColor),
        "gravity" := Int(s.gravity)]
  }

  /** asInt() for the int members, asString() for the others; None where jsoncpp throws. */
  function Convert(k: Key, v: Json): (r: Option<SettingValue>)
    ensures r.Some? ==> (r.value.Number? <==> IsIntKey(k))
  {
    if IsIntKey(k) then
      match AsInt(v) case None => None case Some(i) => Some(Number(i))
    else
      match AsString(v) case None => None case Some(t) => Some(Chars(t))
  }

  /** Reading back an encoded setting gives the setting. */
  lemma ConvertEncoded(s: Settings, k: Key)
    ensures Convert(k, Encode(Setting(s, k))) == Some(Setting(s, k))
  {
  }

  function WithSetting(s: Settings, k: Key, val: SettingValue): (r: Settings)
    requires val.Number? <==> IsIntKey(k)
    ensures Setting(r, k) == val
    ensures forall other :: other != k ==> Setting(r, other) == Setting(s, other)
  {
    match k
    case Width => s.(width := val.i)
    case Height => s.(height := val.i)
    case XOffset => s.(xOffset := val.i)
    case YOffset => s.(yOffset := val.i)
    case Text => s.(text := val.s)
    case Font => s.(font := val.s)
    case TextColor => s.(textColor := val.s)
    case BackgroundColor => s.(backgroundColor := val.s)
    case TextBackgroundColor => s.(textBackgroundColor := val.s)
    case Gravity => s.(gravity := val.i)
  }

  /** The settings after a JSON update, and whether every conversion succeeded. */
  datatype Applied = Applied(settings: Settings, ok: bool)

  /** A member holds a value of the kind SetJsonValue reads for it, or nothing. */
  predicate Readable(root: JsonObject, k: Key)
  {
    Member(root, Name(k)) == Null || Convert(k, Member(root, Name(k))).Some?
  }

  /**
   * One `if the member is not null, assign its conversion` step: null changes
   * nothing; a failed conversion throws, and no later step runs.
   */
  function Step(a: Applied, root: JsonObject, k: Key): (r: Applied)
    ensures r.ok <==> a.ok && Readable(root, k)
    ensures !r.ok ==> r.settings == a.settings
    ensures forall other :: other != k ==> Setting(r.settings, other) == Setting(a.settings, other)
    ensures Member(root, Name(k)) == Null ==> r == a
    ensures r.ok && Member(root, Name(k)) != Null ==>
      Convert(k, Member(root, Name(k))).Some? &&
      Setting(r.settings, k) == Convert(k, Member(root, Name(k))).value
  {
    if !a.ok then a
    else
      var v := Member(root, Name(k));
      if v == Null then a
      else match Convert(k, v)
        case None => Applied(a.settings, false)
        case Some(val) => Applied(WithSetting(a.settings, k, val), true)
  }

  /**
   * SetJsonValue on the settings: the ten members in the order the source reads
   * them. It succeeds exactly when every member is readable.
   */
  function ApplyJson(s: Settings, root: JsonObject): (r: Applied)
    ensures r.ok <==> forall k :: Readable(root, k)
  {
    EveryKeyReadable(root);
    var a0 := Applied(s, true);
    var a1 := Step(Step(Step(Step(Step(a0, root, Width), root, Height), root, XOffset), root, YOffset), root, Text);
    Step(Step(Step(Step(Step(a1, root, Font), root, TextColor), root, BackgroundColor), root, TextBackgroundColor), root, Gravity)
  }

  /** A step reading the JSON of s copies that member of s and keeps the others. */
  lemma StepFromJson(a: Applied, s: Settings, k: Key)
    requires a.ok
    ensures Step(a, ToJson(s), k) == Applied(WithSetting(a.settings, k, Setting(s, k)), true)
  {
    ConvertEncoded(s, k);
  }

  /** Loading the JSON of s gives back s, whatever the settings were before. */
  lemma JsonRoundTrip(s: Settings, before: Settings)
    ensures ApplyJson(before, ToJson(s)) == Applied(s, true)
  {
    var root := ToJson(s);
    var a := Applied(before, true);
    StepFromJson(a, s, Width);
    a := Step(a, root, Width);
    StepFromJson(a, s, Height);
    a := Step(a, root, Height);
    StepFromJson(a, s, XOffset);
    a := Step(a, root, XOffset);
    StepFromJson(a, s, YOffset);
    a := Step(a, root, YOffset);
    StepFromJson(a, s, Text);
    a := Step(a, root, Text);
    StepFromJson(a, s, Font);
    a := Step(a, root, Font);
    StepFromJson(a, s, TextColor);
    a := Step(a, root, TextColor);
    StepFromJson(a, s, BackgroundColor);
    a := Step(a, root, BackgroundColor);
    StepFromJson(a, s, TextBackgroundColor);
    a := Step(a, root, TextBackgroundColor);
    StepFromJson(a, s, Gravity);
    a := Step(a, root, Gravity);
    SettingsExtensional(a.settings, s);
  }

  /** A step on another member, or on a null one, leaves a setting as it was. */
  lemma StepKeepsNull(a: Applied, root: JsonObject, k: Key, step: Key)
    requires Member(root, Name(k)) == Null
    ensures Setting(Step(a, root, step).settings, k) == Setting(a.settings, k)
  {
  }

  /** A member that is absent or null keeps its setting, even when a later one fails. */
  lemma NullKeyUntouched(s: Settings, root: JsonObject, k: Key)
    requires Member(root, Name(k)) == Null
    ensures Setting(ApplyJson(s, root).settings, k) == Setting(s, k)
  {
    var a := Applied(s, true);
    StepKeepsNull(a, root, k, Width);
    a := Step(a, root, Width);
    StepKeepsNull(a, root, k, Height);
    a := Step(a, root, Height);
    StepKeepsNull(a, root, k, XOffset);
    a := Step(a, root, XOffset);
    StepKeepsNull(a, root, k, YOffset);
    a := Step(a, root, YOffset);
    StepKeepsNull(a, root, k, Key.Text);
    a := Step(a, root, Key.Text);
    StepKeepsNull(a, root, k, Font);
    a := Step(a, root, Font);
    StepKeepsNull(a, root, k, TextColor);
    a := Step(a, root, TextColor);
    StepKeepsNull(a, root, k, BackgroundColor);
    a := Step(a, root, BackgroundColor);
    StepKeepsNull(a, root, k, TextBackgroundColor);
    a := Step(a, root, TextBackgroundColor);
    StepKeepsNull(a, root, k, Gravity);
    a := Step(a, root, Gravity);
  }

  /** Every member readable is the same as each of the ten readable. */
  lemma EveryKeyReadable(root: JsonObject)
    ensures (forall k :: Readable(root, k)) <==>
      Readable(root, Width) &&
      Readable(root, Height) &&
      Readable(root, XOffset) &&
      Readable(root, YOffset) &&
      Readable(root, Key.Text) &&
      Readable(root, Font) &&
      Readable(root, TextColor) &&
      Readable(root, BackgroundColor) &&
      Readable(root, TextBackgroundColor) &&
      Readable(root, Gravity)
  {
    if Readable(root, Width) && Readable(root, Height) && Readable(root, XOffset) && Readable(root, YOffset) && Readable(root, Key.Text) && Readable(root, Font) && Readable(root, TextColor) && Readable(root, BackgroundColor) && Readable(root, TextBackgroundColor) && Readable(root, Gravity) {
      forall k ensures Readable(root, k) {
        match k
        case Width =>
        case Height =>
        case XOffset =>
        case YOffset =>
        case Text =>
        case Font =>
        case TextColor =>
        case BackgroundColor =>
        case TextBackgroundColor =>
        case Gravity =>
      }
    }
  }

  /**
   * A step that succeeds leaves a present member k holding its converted value if
   * the step reads k, or if k held it already; and only a successful update makes
   * a successful step.
   */
  lemma StepAssignsOrKeeps(a: Applied, root: JsonObject, k: Key, step: Key)
    requires Member(root, Name(k)) != Null
    ensures Step(a, root, step).ok ==> a.ok
    ensures var v := Convert(k, Member(root, Name(k)));
      (Step(a, root, step).ok && (step == k || (v.Some? && Setting(a.settings, k) == v.value))) ==>
      (v.Some? && Setting(Step(a, root, step).settings, k) == v.value)
  {
  }

  /**
   * A member that holds a value, in an update that succeeds, ends up as that
   * value converted; later members never touch it.
   */
  lemma PresentKeyAssigned(s: Settings, root: JsonObject, k: Key)
    requires Member(root, Name(k)) != Null
    ensures ApplyJson(s, root).ok ==>
      Convert(k, Member(root, Name(k))).Some? &&
      Setting(ApplyJson(s, root).settings, k) == Convert(k, Member(root, Name(k))).value
  {
    var a := Applied(s, true);
    StepAssignsOrKeeps(a, root, k, Width);
    a := Step(a, root, Width);
    StepAssignsOrKeeps(a, root, k, Height);
    a := Step(a, root, Height);
    StepAssignsOrKeeps(a, root, k, XOffset);
    a := Step(a, root, XOffset);
    StepAssignsOrKeeps(a, root, k, YOffset);
    a := Step(a, root, YOffset);
    StepAssignsOrKeeps(a, root, k, Key.Text);
    a := Step(a, root, Key.Text);
    StepAssignsOrKeeps(a, root, k, Font);
    a := Step(a, root, Font);
    StepAssignsOrKeeps(a, root, k, TextColor);
    a := Step(a, root, TextColor);
    StepAssignsOrKeeps(a, root, k, BackgroundColor);
    a := Step(a, root, BackgroundColor);
    StepAssignsOrKeeps(a, root, k, TextBackgroundColor);
    a := Step(a, root, TextBackgroundColor);
    StepAssignsOrKeeps(a, root, k, Gravity);
    a := Step(a, root, Gravity);
  }

  /** asString on the number -12 gives its decimal form "-12". */
  lemma NegativeNumberAsText()
    ensures Convert(Key.Text, Int(-12)) == Some(Chars("-12"))
  {
    assert DecimalString(-12) == "-12" by {
      assert NatDigits(1) == "1";
      assert NatDigits(12) == "12";
    }
    assert AsString(Int(-12)) == Some("-12");
  }

  /** The members read before "text" are absent from {"text": -12}, so their steps change nothing. */
  lemma MembersBeforeTextAbsent(a: Applied)
    ensures var root := map["text" := Int(-12)];
      Step(Step(Step(Step(a, root, Width), root, Height), root, XOffset), root, YOffset) == a
  {
    var root := map["text" := Int(-12)];
    var b := a;
    assert Member(root, Name(Width)) == Null;
    b := Step(b, root, Width);
    assert b == a;
    assert Member(root, Name(Height)) == Null;
    b := Step(b, root, Height);
    assert b == a;
    assert Member(root, Name(XOffset)) == Null;
    b := Step(b, root, XOffset);
    assert b == a;
    assert Member(root, Name(YOffset)) == Null;
    b := Step(b, root, YOffset);
    assert b == a;
  }

  /** The members read after "text" are absent from {"text": -12}, so their steps change nothing. */
  lemma MembersAfterTextAbsent(a: Applied)
    ensures var root := map["text" := Int(-12)];
      Step(Step(Step(Step(Step(a, root, Font), root, TextColor), root, BackgroundColor), root, TextBackgroundColor), root, Gravity) == a
  {
    var root := map["text" := Int(-12)];
    var b := a;
    assert Member(root, Name(Font)) == Null;
    b := Step(b, root, Font);
    assert b == a;
    assert Member(root, Name(TextColor)) == Null;
    b := Step(b, root, TextColor);
    assert b == a;
    assert Member(root, Name(BackgroundColor)) == Null;
    b := Step(b, root, BackgroundColor);
    assert b == a;
    assert Member(root, Name(TextBackgroundColor)) == Null;
    b := Step(b, root, TextBackgroundColor);
    assert b == a;
    assert Member(root, Name(Gravity)) == Null;
    b := Step(b, root, Gravity);
    assert b == a;
  }

  /** The "text" step stores the decimal form of -12. */
  lemma TextStepStoresDecimal(s: Settings)
    ensures Step(Applied(s, true), map["text" := Int(-12)], Key.Text) == Applied(s.(text := "-12"), true)
  {
    NegativeNumberAsText();
    assert Member(map["text" := Int(-12)], "text") == Int(-12);
    assert WithSetting(s, Key.Text, Chars("-12")) == s.(text := "-12");
  }

  /** A number where a string is read is written in decimal. */
  lemma NumberReadAsText(s: Settings)
    ensures ApplyJson(s, map["text" := Int(-12)]) == Applied(s.(text := "-12"), true)
  {
    MembersBeforeTextAbsent(Applied(s, true));
    TextStepStoresDecimal(s);
    MembersAfterTextAbsent(Applied(s.(text := "-12"), true));
  }

  /** A string where a number is read makes the load fail and stop. */
  lemma TextReadAsNumberFails(s: Settings)
    ensures ApplyJson(s, map["width" := Str("12")]) == Applied(s, false)
  {
  }

  // ---------------------------------------------------------------------------
  // The frame GetFrame hands out

  /** The arguments of the Frame constructor GetFrame calls, and the image added to it. */
  datatype ReaderFrame = ReaderFrame(number: int, width: int, height: int, color: string,
                                     samples: int, channels: int, image: Option<TextImage>)

  /**
   * QFont("Arial", 10), modelled by an abstract description string; it is not
   * the exact text QFont::toString writes.
   */
  const DEFAULT_FONT := "Arial,10"

  class QtTextReader {
    var width: int
    var height: int
    var xOffset: int
    var yOffset: int
    var text: string
    var font: string
    var textColor: string
    var backgroundColor: string
    var textBackgroundColor: string
    var gravity: int
    var isOpen: bool
    var image: Option<TextImage>
    var info: ReaderInfo

    function Config(): Settings
      reads this
    {
      Settings(width, height, xOffset, yOffset, text, font, textColor, backgroundColor,
               textBackgroundColor, gravity)
    }

    /** QtTextReader(): 1024 x 768, blank text, white on black, centred; then Open and Close. */
    constructor Default(beginOk: bool)
      ensures Config() == Settings(1024, 768, 0, 0, "", DEFAULT_FONT, "#ffffff", "#000000", "", GRAVITY_CENTER)
      ensures !isOpen
      ensures beginOk ==> image == None && Populated(info, 1024, 768) && info.displayRatio == Fraction(4, 3)
      ensures beginOk ==> info.vcodec == "" && info.acodec == ""
      ensures !beginOk ==> image == Some(NewImage(Config()))
    {
      width, height, xOffset, yOffset := 1024, 768, 0, 0;
      text, font, textColor, backgroundColor, textBackgroundColor := "", DEFAULT_FONT, "#ffffff", "#000000", "";
      gravity := GRAVITY_CENTER;
      isOpen := false;
      image := None;
      info := *;
      new;
      Open(beginOk);
      Close();
      DefaultDisplayRatio();
    }

    /** The full constructor: the given configuration, then Open and Close. */
    constructor (width: int, height: int, xOffset: int, yOffset: int, gravity: int, text: string,
                 font: string, textColor: string, backgroundColor: string, beginOk: bool)
      requires beginOk ==> width > 0 && height > 0
      ensures Config() == Settings(width, height, xOffset, yOffset, text, font, textColor, backgroundColor, "", gravity)
      ensures !isOpen
      ensures beginOk ==> image == None && Populated(info, width, height)
      ensures beginOk ==> info.vcodec == "" && info.acodec == ""
      ensures !beginOk ==> image == Some(NewImage(Config()))
    {
      this.width, this.height, this.xOffset, this.yOffset := width, height, xOffset, yOffset;
      this.text, this.font, this.textColor, this.backgroundColor := text, font, textColor, backgroundColor;
      textBackgroundColor := "";
      this.gravity := gravity;
      isOpen := false;
      image := None;
      info := *;
      new;
      Open(beginOk);
      Close();
    }

    /**
     * Open: on a closed reader, creates the image, then, if the painter can begin,
     * draws the text, fills in info and marks the reader open. An open reader is
     * left alone. The painter cannot begin on Qt's null image.
     */
    method Open(beginOk: bool)
      requires beginOk ==> width > 0 && height > 0
      modifies this
      ensures Config() == old(Config())
      ensures old(isOpen) ==> isOpen && image == old(image) && info == old(info)
      ensures !old(isOpen) && !beginOk ==> !isOpen && image == Some(NewImage(Config())) && info == old(info)
      ensures !old(isOpen) && beginOk ==>
        isOpen && image == Some(RenderedImage(Config())) && info == OpenedInfo(old(info), width, height)
    {
      if !isOpen {
        image := Some(NewImage(Config()));
        if !beginOk {
          return;
        }
        var background := if textBackgroundColor != "" then Some(textBackgroundColor) else None;
        var alignFlag := AlignmentFlag(gravity);
        image := Some(image.value.(drawing := Some(TextDrawing(xOffset, yOffset, width, height, alignFlag,
                                                              text, font, textColor, background))));

        info := info.(hasAudio := false, hasVideo := true, fileSize := 0, vcodec := "QImage",
                      width := width, height := height, pixelRatio := Fraction(1, 1),
                      duration := DURATION, fps := Fraction(30, 1), videoTimebase := Fraction(1, 30));
        info := info.(videoLength := Round(info.duration * info.fps.Value()));

        var fontSize := Fraction(info.width * info.pixelRatio.num, info.height * info.pixelRatio.den);
        fontSize := fontSize.Reduce();
        info := info.(displayRatio := Fraction(fontSize.num, fontSize.den));

        isOpen := true;
      }
    }

    /** Close: on an open reader, marks it closed, drops the image and clears the codec names. */
    method Close()
      modifies this
      ensures Config() == old(Config()) && !isOpen
      ensures old(isOpen) ==> image == None && info == ClosedInfo(old(info))
      ensures !old(isOpen) ==> image == old(image) && info == old(info)
    {
      if isOpen {
        isOpen := false;
        image := None;
        info := info.(vcodec := "", acodec := "");
      }
    }

    /**
     * SetTextBackgroundColor: stores the colour, then Open and Close; on an open
     * reader Open does nothing, so the reader ends up closed.
     */
    method SetTextBackgroundColor(color: string, beginOk: bool)
      requires beginOk ==> width > 0 && height > 0
      modifies this
      ensures Config() == old(Config()).(textBackgroundColor := color) && !isOpen
      ensures old(isOpen) ==> image == None && info == ClosedInfo(old(info))
      ensures !old(isOpen) && beginOk ==> image == None && info == ClosedInfo(OpenedInfo(old(info), width, height))
      ensures !old(isOpen) && !beginOk ==> image == Some(NewImage(Config())) && info == old(info)
    {
      textBackgroundColor := color;
      Open(beginOk);
      Close();
    }

    /**
     * GetFrame: with an image, frame requested_frame at the image's size carrying
     * the image; without one, an empty frame 1 of 640 x 480.
     */
    function GetFrame(requestedFrame: int): (f: ReaderFrame)
      reads this
      ensures f.image == image && f.color == backgroundColor && f.samples == 0 && f.channels == 2
      ensures image.Some? ==> f.number == requestedFrame && f.width == image.value.width && f.height == image.value.height
      ensures image.None? ==> f.number == 1 && f.width == 640 && f.height == 480
    {
      match image
      case Some(img) => ReaderFrame(requestedFrame, img.width, img.height, backgroundColor, 0, 2, Some(img))
      case None => ReaderFrame(1, 640, 480, backgroundColor, 0, 2, None)
    }

    /** JsonValue: the reader's settings as JSON. */
    function JsonValue(): (root: JsonObject)
      reads this
      ensures forall before :: ApplyJson(before, root) == Applied(Config(), true)
    {
      forall before ensures ApplyJson(before, ToJson(Config())) == Applied(Config(), true) {
        JsonRoundTrip(Config(), before);
      }
      ToJson(Config())
    }

    /**
     * One member of SetJsonValue: if it is present and not null, convert it and
     * assign the setting; false where the conversion throws.
     */
    method ReadMember(root: JsonObject, k: Key) returns (ok: bool)
      modifies this
      ensures Applied(Config(), ok) == Step(Applied(old(Config()), true), root, k)
      ensures isOpen == old(isOpen) && image == old(image) && info == old(info)
    {
      var v := Member(root, Name(k));
      if v == Null {
        return true;
      }
      match Convert(k, v)
      case None =>
        return false;
      case Some(val) =>
        match k {
          case Width => width := val.i;
          case Height => height := val.i;
          case XOffset => xOffset := val.i;
          case YOffset => yOffset := val.i;
          case Text => text := val.s;
          case Font => font := val.s;
          case TextColor => textColor := val.s;
          case BackgroundColor => backgroundColor := val.s;
          case TextBackgroundColor => textBackgroundColor := val.s;
          case Gravity => gravity := val.i;
        }
        return true;
    }

    /**
     * SetJsonValue: overwrites each setting whose member is present and not null,
     * in source order; if a conversion throws, the remaining members are skipped.
     * A reader that was open is closed and reopened so that info follows.
     */
    method SetJsonValue(root: JsonObject, beginOk: bool) returns (ok: bool)
      requires beginOk ==> ApplyJson(Config(), root).settings.width > 0 && ApplyJson(Config(), root).settings.height > 0
      modifies this
      ensures Config() == ApplyJson(old(Config()), root).settings
      ensures ok == ApplyJson(old(Config()), root).ok
      ensures !(ok && old(isOpen)) ==> isOpen == old(isOpen) && image == old(image) && info == old(info)
      ensures ok && old(isOpen) && beginOk ==>
        isOpen && image == Some(RenderedImage(Config())) && info == OpenedInfo(ClosedInfo(old(info)), width, height)
      ensures ok && old(isOpen) && !beginOk ==>
        !isOpen && image == Some(NewImage(Config())) && info == ClosedInfo(old(info))
    {
      ghost var a := Applied(Config(), true);
      ok := ReadMember(root, Width);
      a := Step(a, root, Width);
      if !ok { return; }
      ok := ReadMember(root, Height);
      a := Step(a, root, Height);
      if !ok { return; }
      ok := ReadMember(root, XOffset);
      a := Step(a, root, XOffset);
      if !ok { return; }
      ok := ReadMember(root, YOffset);
      a := Step(a, root, YOffset);
      if !ok { return; }
      ok := ReadMember(root, Key.Text);
      a := Step(a, root, Key.Text);
      if !ok { return; }
      ok := ReadMember(root, Font);
      a := Step(a, root, Font);
      if !ok { return; }
      ok := ReadMember(root, TextColor);
      a := Step(a, root, TextColor);
      if !ok { return; }
      ok := ReadMember(root, BackgroundColor);
      a := Step(a, root, BackgroundColor);
      if !ok { return; }
      ok := ReadMember(root, TextBackgroundColor);
      a := Step(a, root, TextBackgroundColor);
      if !ok { return; }
      ok := ReadMember(root, Gravity);
      a := Step(a, root, Gravity);
      if !ok { return; }
      if isOpen {
        Close();
        Open(beginOk);
      }
    }

    /**
     * SetJson: text that does not parse fails with "could not be parsed" and
     * changes nothing; a failed load fails with "invalid".
     */
    method SetJson(value: string, parse: Parser, beginOk: bool) returns (res: Outcome)
      requires beginOk && parse(value).Some? ==>
        ApplyJson(Config(), parse(value).value).settings.width > 0 &&
        ApplyJson(Config(), parse(value).value).settings.height > 0
      modifies this
      ensures parse(value).None? ==>
        (res == Fail(UNPARSABLE_JSON) && Config() == old(Config()) &&
         isOpen == old(isOpen) && image == old(image) && info == old(info))
      ensures parse(value).Some? ==>
        var a := ApplyJson(old(Config()), parse(value).value);
        Config() == a.settings && res == (if a.ok then Pass else Fail(INVALID_JSON))
      ensures parse(value).Some? && !(res.Pass? && old(isOpen)) ==>
        isOpen == old(isOpen) && image == old(image) && info == old(info)
      ensures parse(value).Some? && res.Pass? && old(isOpen) && beginOk ==>
        isOpen && image == Some(RenderedImage(Config())) && info == OpenedInfo(ClosedInfo(old(info)), width, height)
      ensures parse(value).Some? && res.Pass? && old(isOpen) && !beginOk ==>
        !isOpen && image == Some(NewImage(Config())) && info == ClosedInfo(old(info))
    {
      match parse(value)
      case None =>
        res := Fail(UNPARSABLE_JSON);
      case Some(root) =>
        var ok := SetJsonValue(root, beginOk);
        res := if ok then Pass else Fail(INVALID_JSON);
    }
  }
}
