/** The records the script works on: photo entries of the 500px search
    response (already decoded from JSON), the environment configuration,
    the fixed canvas, and compositing jobs. Python truthiness of the
    optional fields is spelled out here once. */
module Records {
  import opened Wrappers
  import opened Text

  /** `CANVAS_OUTPUT` (main.py:17). */
  const CanvasWidth: int := 1920
  const CanvasHeight: int := 1080

  /** A JSON number as Python's `json` module decodes it: an `int` when the
      text has no fraction or exponent, otherwise a `float`, held by its
      sign, its whole part and its fraction digits. */
  datatype Number =
    | Int(value: int)
    | Float(negative: bool, whole: nat, fraction: seq<Digit>)

  /** The spelling Python's `str()` gives a float: at least one fraction
      digit, and no trailing zero unless the fraction is exactly `0`
      (`1.5`, `2.0`, never `1.50` or `2.`). Every int is canonical. */
  predicate Canonical(n: Number) {
    match n
    case Int(_) => true
    case Float(_, _, f) => f == [0] || (|f| >= 1 && f[|f| - 1] != 0)
  }

  /** A decoded coordinate: one spelling per value, as `str()` prints it. */
  type JsonNumber = n: Number | Canonical(n) witness Int(0)

  /** Python truthiness of a number: false exactly for `0` and `0.0`/`-0.0`. */
  predicate IsZero(n: Number) {
    match n
    case Int(v) => v == 0
    case Float(_, w, f) => w == 0 && forall i :: 0 <= i < |f| ==> f[i] == 0
  }

  predicate IsNumberChar(ch: char) {
    IsDigitChar(ch) || ch == '-' || ch == '.'
  }

  function DigitsToString(f: seq<Digit>): (s: string)
    ensures |s| == |f| && AllDigits(s)
    ensures forall i :: 0 <= i < |s| ==> DigitValue(s[i]) == f[i]
  {
    seq(|f|, i requires 0 <= i < |f| => DigitChar(f[i]))
  }

  /** The digits of a digit string, one value per character. */
  function DigitValues(s: string): (f: seq<Digit>)
    requires AllDigits(s)
    ensures |f| == |s|
  {
    seq(|s|, i requires 0 <= i < |s| => DigitValue(s[i]))
  }

  /** Python's `str()` of a decoded JSON number. */
  function Render(n: JsonNumber): (s: string)
    ensures |s| >= 1
    ensures forall i :: 0 <= i < |s| ==> IsNumberChar(s[i])
  {
    match n
    case Int(v) => IntToString(v)
    case Float(neg, w, f) =>
      (if neg then "-" else "") + NatToString(w) + "." + DigitsToString(f)
  }

  /** Reads a number back from its text: an optional minus sign, a digit
      run, and, for a float, a dot followed by a second digit run. */
  function ParseNumber(s: string): Option<Number> {
    if |s| >= 1 && s[0] == '-' then ParseUnsigned(s[1..], true)
    else ParseUnsigned(s, false)
  }

  function ParseUnsigned(s: string, negative: bool): Option<Number> {
    match LastIndexOf(s, '.')
    case None =>
      if |s| >= 1 && AllDigits(s)
      then
        var m: int := ParseDigits(s);
        Some(Int(if negative then -m else m))
      else None
    case Some(d) =>
      var whole := s[..d];
      var fraction := s[d + 1..];
      if |whole| >= 1 && AllDigits(whole) && |fraction| >= 1 && AllDigits(fraction)
      then Some(Float(negative, ParseDigits(whole), DigitValues(fraction)))
      else None
  }

  lemma DigitValuesOfString(f: seq<Digit>)
    ensures DigitValues(DigitsToString(f)) == f
  {
  }

  lemma ParseUnsignedFloat(negative: bool, w: nat, f: seq<Digit>)
    requires |f| >= 1
    ensures ParseUnsigned(NatToString(w) + "." + DigitsToString(f), negative)
      == Some(Float(negative, w, f))
  {
    var whole := NatToString(w);
    var digits := DigitsToString(f);
    assert '.' !in digits by {
      assert forall i :: 0 <= i < |digits| ==> IsDigitChar(digits[i]);
    }
    LastIndexAfter(whole, '.', digits);
    var s := whole + "." + digits;
    assert whole + ['.'] + digits == s;
    assert s[..|whole|] == whole;
    assert s[|whole| + 1..] == digits;
    ParseNatToString(w);
    DigitValuesOfString(f);
  }

  lemma ParseUnsignedInt(negative: bool, v: nat)
    ensures ParseUnsigned(NatToString(v), negative)
      == Some(Int(if negative then -(v as int) else v))
  {
    var s := NatToString(v);
    assert '.' !in s by {
      assert forall i :: 0 <= i < |s| ==> IsDigitChar(s[i]);
    }
    ParseNatToString(v);
  }

  lemma ParseRenderInt(v: int)
    ensures ParseNumber(Render(Int(v))) == Some(Int(v))
  {
    if v < 0 {
      assert Render(Int(v)) == "-" + NatToString(-v);
      assert ("-" + NatToString(-v))[1..] == NatToString(-v);
      ParseUnsignedInt(true, -v);
    } else {
      ParseUnsignedInt(false, v);
    }
  }

  lemma ParseNegative(t: string)
    ensures ParseNumber("-" + t) == ParseUnsigned(t, true)
  {
    assert ("-" + t)[1..] == t;
  }

  lemma ParseNonNegative(t: string)
    requires |t| >= 1 && IsDigitChar(t[0])
    ensures ParseNumber(t) == ParseUnsigned(t, false)
  {
  }

  lemma RenderFloatText(neg: bool, w: nat, f: seq<Digit>)
    requires Canonical(Float(neg, w, f))
    ensures Render(Float(neg, w, f)) ==
      (if neg then "-" else "") + (NatToString(w) + "." + DigitsToString(f))
  {
  }

  lemma ParseRenderFloat(neg: bool, w: nat, f: seq<Digit>)
    requires Canonical(Float(neg, w, f))
    ensures ParseNumber(Render(Float(neg, w, f))) == Some(Float(neg, w, f))
  {
    var head := NatToString(w);
    var tail := head + "." + DigitsToString(f);
    RenderFloatText(neg, w, f);
    ParseUnsignedFloat(neg, w, f);
    if neg {
      ParseNegative(tail);
      assert ParseNumber(Render(Float(neg, w, f))) == ParseNumber("-" + tail);
    } else {
      assert Render(Float(neg, w, f)) == tail by {
        assert "" + tail == tail;
      }
      assert tail[0] == head[0];
      ParseNonNegative(tail);
    }
  }

  /** `str()` loses nothing: the text of a number reads back as the same
      number, so two different coordinates never print alike. */
  lemma ParseRender(n: JsonNumber)
    ensures ParseNumber(Render(n)) == Some(n)
  {
    if n.Int? {
      ParseRenderInt(n.value);
    } else {
      ParseRenderFloat(n.negative, n.whole, n.fraction);
    }
  }

  /** Worked values of `str()`: a float, a whole float, an int. */
  lemma RenderExamples()
    ensures Render(Float(false, 48, [8, 5])) == "48.85"
    ensures Render(Float(true, 2, [0])) == "-2.0"
    ensures Render(Int(-3)) == "-3"
  {
  }

  /** The rendering of a number never contains a comma, so it can be one
      element of a comma-joined list. */
  lemma RenderHasNoComma(n: JsonNumber)
    ensures ',' !in Render(n)
  {
  }

  /** One entry of the search response's `photos` array: `width`, `height`,
      `name`, `location`, `latitude`, `longitude`, `url` (the page path) and
      `images[0].url` (the download address). */
  datatype Photo = Photo(
    width: int,
    height: int,
    name: string,
    location: Option<string>,
    latitude: Option<JsonNumber>,
    longitude: Option<JsonNumber>,
    url: string,
    imageUrl: string)

  /** The environment variables `HERE_API_KEY`, `HOME_LATITUDE` and
      `HOME_LONGITUDE` (main.py:18-20); `None` when unset. */
  datatype Config = Config(
    hereApiKey: Option<string>,
    homeLatitude: Option<string>,
    homeLongitude: Option<string>)

  /** Python truthiness of an optional string: set and non-empty. */
  predicate TruthyText(v: Option<string>) {
    v.Some? && v.value != ""
  }

  /** Python truthiness of an optional number: set and non-zero. */
  predicate TruthyNumber(v: Option<JsonNumber>) {
    v.Some? && !IsZero(v.value)
  }

  /** One `process_image(session, tag, index, photo)` call (main.py:65). */
  datatype Job = Job(tag: string, index: nat, photo: Photo)
}
