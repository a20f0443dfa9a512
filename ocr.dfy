/** The conversion of the OCR service's answer (src/ocr/ocr.rs, `do_ocr` and
    `From<OcrOutputData> for AnalyzeCaptureAreaInput`): every recognised text
    is cleaned to printable ASCII and whitespace, and every box given by its
    edges becomes a rectangle given by its corner and size. */
module Ocr {
  import opened Wrappers
  import opened Calibration

  type u32 = x: int | 0 <= x < 0x1_0000_0000

  /** `char::is_ascii_graphic`: '!' through '~'. */
  predicate IsAsciiGraphic(c: char) {
    '!' <= c <= '~'
  }

  /** `char::is_ascii_whitespace`: space, tab, line feed, form feed and
      carriage return (not the vertical tab). */
  predicate IsAsciiWhitespace(c: char) {
    c == ' ' || c == '\t' || c == '\n' || c as int == 0x0C || c == '\r'
  }

  predicate Kept(c: char) {
    IsAsciiGraphic(c) || IsAsciiWhitespace(c)
  }

  /** The cleaning of a recognised text. */
  function Sanitize(s: string): (r: string)
    ensures |r| <= |s|
    ensures forall i :: 0 <= i < |r| ==> Kept(r[i])
    ensures forall c :: c in r <==> c in s && Kept(c)
  {
    var r := Filter(Kept, s);
    forall c | c in s && Kept(c) ensures c in r {
      FilterComplete(Kept, s, c);
    }
    r
  }

  /** Cleaning leaves a clean text alone, and only a clean one. */
  lemma SanitizeIdentity(s: string)
    ensures Sanitize(s) == s <==> forall i :: 0 <= i < |s| ==> Kept(s[i])
  {
    FilterIdentity(Kept, s);
  }

  lemma SanitizeIdempotent(s: string)
    ensures Sanitize(Sanitize(s)) == Sanitize(s)
  {
    FilterIdempotent(Kept, s);
  }

  /** Cleaning works piece by piece: it keeps the order of what it keeps. */
  lemma SanitizeConcat(a: string, b: string)
    ensures Sanitize(a + b) == Sanitize(a) + Sanitize(b)
  {
    FilterConcat(Kept, a, b);
  }

  /** A box as the service reports it. */
  datatype Area = Area(top: u32, left: u32, right: u32, bottom: u32)

  /** One recognised text with its box (`OcrApiData`). */
  datatype OcrApiData = OcrApiData(text: string, area: Area)

  /** One cleaned text with its rectangle (`OcrOutputData`). */
  datatype OcrOutputData = OcrOutputData(text: string, area: Rect)

  /** `OCRError`; the payload of the network and JSON errors is not kept. */
  datatype OcrError = InvalidInput(message: string) | NetworkError | Json | Unknown

  /** u32 subtraction as a release build computes it (wrapping). */
  function WrappingSub(a: u32, b: u32): (r: u32)
    ensures a >= b ==> r == a - b
    ensures a < b ==> r == a - b + 0x1_0000_0000
  {
    (a - b) % 0x1_0000_0000
  }

  /** The rectangle of a box: corner at (left, top), size from the edges. */
  function ToRect(a: Area): (r: Rect)
    ensures r.x == a.left && r.y == a.top
    ensures a.left <= a.right && a.top <= a.bottom ==> Right(r) == a.right && Bottom(r) == a.bottom
  {
    Rect(a.left, a.top, WrappingSub(a.right, a.left), WrappingSub(a.bottom, a.top))
  }

  /** The body of the `do_ocr` loop for one result. */
  function Convert(v: OcrApiData): OcrOutputData {
    OcrOutputData(Sanitize(v.text), ToRect(v.area))
  }

  /** The loop of `do_ocr` over the decoded answer. */
  method ConvertAll(results: seq<OcrApiData>) returns (out: seq<OcrOutputData>)
    ensures |out| == |results|
    ensures forall i :: 0 <= i < |results| ==>
      out[i].text == Sanitize(results[i].text) && out[i].area == ToRect(results[i].area)
  {
    out := [];
    for i := 0 to |results|
      invariant |out| == i
      invariant forall k :: 0 <= k < i ==> out[k] == Convert(results[k])
    {
      var v := results[i];
      var clean := Filter(Kept, v.text);
      out := out + [OcrOutputData(clean, Rect(v.area.left, v.area.top,
                                              WrappingSub(v.area.right, v.area.left),
                                              WrappingSub(v.area.bottom, v.area.top)))];
    }
  }

  /** `do_ocr` after the request: a failed request or an undecodable answer
      is passed on as the error; otherwise the answer is converted. */
  method DoOcr(response: Result<seq<OcrApiData>, OcrError>) returns (r: Result<seq<OcrOutputData>, OcrError>)
    ensures response.Err? <==> r.Err?
    ensures response.Err? ==> r.error == response.error
    ensures response.Ok? ==> |r.value| == |response.value|
    ensures response.Ok? ==> forall i :: 0 <= i < |response.value| ==> r.value[i] == Convert(response.value[i])
  {
    if response.Err? {
      return Err(response.error);
    }
    var out := ConvertAll(response.value);
    r := Ok(out);
  }

  /** `AnalyzeCaptureAreaInput::from`. */
  function ToCaptureInput(o: OcrOutputData): (c: CaptureInput)
    ensures c.text == o.text && c.area == o.area
  {
    CaptureInput(o.text, o.area)
  }

  /** What the calibration receives for a recognised line: its cleaned
      text and, for a well-formed box, a rectangle with the box's corner and
      its right and bottom edges. */
  lemma CaptureInputOfConvert(v: OcrApiData)
    ensures ToCaptureInput(Convert(v)).text == Sanitize(v.text)
    ensures v.area.left <= v.area.right && v.area.top <= v.area.bottom ==>
      var c := ToCaptureInput(Convert(v)).area;
      c.x == v.area.left && c.y == v.area.top && Right(c) == v.area.right && Bottom(c) == v.area.bottom
  {
    ConvertProperties(v);
  }

  /** A converted result carries only clean text, and its rectangle spans the
      reported box whenever the box is well formed. */
  lemma ConvertProperties(v: OcrApiData)
    ensures forall i :: 0 <= i < |Convert(v).text| ==> Kept(Convert(v).text[i])
    ensures Sanitize(Convert(v).text) == Convert(v).text
    ensures v.area.left <= v.area.right && v.area.top <= v.area.bottom ==>
      Convert(v).area.x == v.area.left && Convert(v).area.y == v.area.top
      && Right(Convert(v).area) == v.area.right && Bottom(Convert(v).area) == v.area.bottom
  {
    SanitizeIdempotent(v.text);
  }
}
