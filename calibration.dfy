/** Capture-region calibration (src/engine/blackdesert.rs, `analyze` and the
    chat-log branch of `screen_config`): the bounding box of every detected
    text box whose text parses as a loot line. */
module Calibration {
  import opened Wrappers
  import opened Loot

  /** `image::math::Rect`: top-left corner and size (u32 fields, unbounded
      here). */
  datatype Rect = Rect(x: nat, y: nat, width: nat, height: nat)

  /** `AnalyzeCaptureAreaInput`: one recognised text and its box. */
  datatype CaptureInput = CaptureInput(text: string, area: Rect)

  function Right(r: Rect): nat {
    r.x + r.width
  }

  function Bottom(r: Rect): nat {
    r.y + r.height
  }

  /** `outer` covers `inner`. */
  predicate Contains(outer: Rect, inner: Rect) {
    outer.x <= inner.x && outer.y <= inner.y && Right(inner) <= Right(outer) && Bottom(inner) <= Bottom(outer)
  }

  /** The default region of `analyze`. */
  const AnalyzeDefault: Rect := Rect(1000, 400, 920, 640)

  /** The region `screen_config` returns in chat-log mode when nothing parses. */
  const ScreenConfigDefault: Rect := Rect(0, 0, 0, 0)

  /** The box of an input whose text parses in `mode`. */
  function Detection(mode: Mode): CaptureInput -> Option<Rect> {
    (v: CaptureInput) => if Parser(mode)(v.text).Some? then Some(v.area) else None
  }

  lemma DetectionIsParse(mode: Mode, v: CaptureInput)
    ensures Detection(mode)(v) == if ParseLine(mode, v.text).Some? then Some(v.area) else None
  {
    match mode {
      case DropLog =>
        assert Parser(mode)(v.text) == ParseDropLog(v.text);
      case ChatLog =>
        assert Parser(mode)(v.text) == ParseChatLog(v.text);
    }
  }

  /** The boxes of the inputs whose text parses in `mode`, in order. */
  function Matched(mode: Mode, input: seq<CaptureInput>): (rs: seq<Rect>)
    ensures |rs| <= |input|
  {
    FilterMap(Detection(mode), input)
  }

  function MinX(rs: seq<Rect>): (m: nat)
    requires rs != []
    ensures forall i :: 0 <= i < |rs| ==> m <= rs[i].x
    ensures exists i :: 0 <= i < |rs| && m == rs[i].x
  {
    if |rs| == 1 then rs[0].x
    else
      var m := MinX(rs[..|rs| - 1]);
      assert forall i :: 0 <= i < |rs| - 1 ==> rs[..|rs| - 1][i] == rs[i];
      if rs[|rs| - 1].x < m then rs[|rs| - 1].x else m
  }

  function MinY(rs: seq<Rect>): (m: nat)
    requires rs != []
    ensures forall i :: 0 <= i < |rs| ==> m <= rs[i].y
    ensures exists i :: 0 <= i < |rs| && m == rs[i].y
  {
    if |rs| == 1 then rs[0].y
    else
      var m := MinY(rs[..|rs| - 1]);
      assert forall i :: 0 <= i < |rs| - 1 ==> rs[..|rs| - 1][i] == rs[i];
      if rs[|rs| - 1].y < m then rs[|rs| - 1].y else m
  }

  function MaxRight(rs: seq<Rect>): (m: nat)
    requires rs != []
    ensures forall i :: 0 <= i < |rs| ==> Right(rs[i]) <= m
    ensures exists i :: 0 <= i < |rs| && m == Right(rs[i])
  {
    if |rs| == 1 then Right(rs[0])
    else
      var m := MaxRight(rs[..|rs| - 1]);
      assert forall i :: 0 <= i < |rs| - 1 ==> rs[..|rs| - 1][i] == rs[i];
      if Right(rs[|rs| - 1]) > m then Right(rs[|rs| - 1]) else m
  }

  function MaxBottom(rs: seq<Rect>): (m: nat)
    requires rs != []
    ensures forall i :: 0 <= i < |rs| ==> Bottom(rs[i]) <= m
    ensures exists i :: 0 <= i < |rs| && m == Bottom(rs[i])
  {
    if |rs| == 1 then Bottom(rs[0])
    else
      var m := MaxBottom(rs[..|rs| - 1]);
      assert forall i :: 0 <= i < |rs| - 1 ==> rs[..|rs| - 1][i] == rs[i];
      if Bottom(rs[|rs| - 1]) > m then Bottom(rs[|rs| - 1]) else m
  }

  /** How one more box moves the four edges. */
  lemma EdgesSnoc(rs: seq<Rect>, r: Rect)
    ensures rs == [] ==>
      && MinX(rs + [r]) == r.x && MinY(rs + [r]) == r.y
      && MaxRight(rs + [r]) == Right(r) && MaxBottom(rs + [r]) == Bottom(r)
    ensures rs != [] ==>
      && MinX(rs + [r]) == (if r.x < MinX(rs) then r.x else MinX(rs))
      && MinY(rs + [r]) == (if r.y < MinY(rs) then r.y else MinY(rs))
      && MaxRight(rs + [r]) == (if Right(r) > MaxRight(rs) then Right(r) else MaxRight(rs))
      && MaxBottom(rs + [r]) == (if Bottom(r) > MaxBottom(rs) then Bottom(r) else MaxBottom(rs))
  {
    assert (rs + [r])[..|rs|] == rs;
  }

  /** What the calibration loop leaves behind determines the calibrated
      region: the default when nothing matched, otherwise the box spanned by
      the four edges. */
  lemma CalibratedOfEdges(mode: Mode, input: seq<CaptureInput>, default: Rect, rs: seq<Rect>, a: Rect, found: bool)
    requires rs == Matched(mode, input)
    requires !found ==> rs == [] && a == default
    requires found ==> rs != [] && a == Rect(MinX(rs), MinY(rs), MaxRight(rs), MaxBottom(rs))
    ensures !found ==> a == Calibrated(mode, input, default)
    ensures found ==> a.x <= a.width && a.y <= a.height
    ensures found ==> Rect(a.x, a.y, a.width - a.x, a.height - a.y) == Calibrated(mode, input, default)
  {
    if found {
      var e := Envelope(rs);
      assert e.width == Right(e) - e.x;
      assert e == Rect(a.x, a.y, a.width - a.x, a.height - a.y);
    }
  }

  /** The loop's running edges, moved by one more box. */
  lemma EdgesStep(rs: seq<Rect>, r: Rect, a: Rect)
    requires rs != [] ==> a == Rect(MinX(rs), MinY(rs), MaxRight(rs), MaxBottom(rs))
    requires rs == [] ==> a == r
    ensures var rs' := rs + [r];
      Rect(if r.x < a.x then r.x else a.x, if r.y < a.y then r.y else a.y,
           if Right(r) > a.width then Right(r) else a.width, if Bottom(r) > a.height then Bottom(r) else a.height)
      == Rect(MinX(rs'), MinY(rs'), MaxRight(rs'), MaxBottom(rs'))
  {
    EdgesSnoc(rs, r);
  }

  /** One more input extends the matched boxes by its own box when it is
      detected. */
  lemma MatchedSnoc(mode: Mode, input: seq<CaptureInput>, i: nat)
    requires i < |input|
    ensures Detection(mode)(input[i]).Some? ==> Matched(mode, input[..i + 1]) == Matched(mode, input[..i]) + [input[i].area]
    ensures Detection(mode)(input[i]).None? ==> Matched(mode, input[..i + 1]) == Matched(mode, input[..i])
  {
    assert input[..i + 1][..i] == input[..i];
  }

  /** The test of the calibration loop: does the line's text parse. */
  method Detects(mode: Mode, v: CaptureInput) returns (found: bool)
    ensures found == Detection(mode)(v).Some?
  {
    var lootData := ParseLoot(mode, v.text);
    DetectionIsParse(mode, v);
    found := lootData.Some?;
  }

  /** The smallest rectangle covering every box of `rs`. */
  function Envelope(rs: seq<Rect>): (e: Rect)
    requires rs != []
    ensures e.x == MinX(rs) && e.y == MinY(rs)
    ensures Right(e) == MaxRight(rs) && Bottom(e) == MaxBottom(rs)
  {
    var i0 :| 0 <= i0 < |rs| && rs[i0].y == MinY(rs);
    var i1 :| 0 <= i1 < |rs| && rs[i1].x == MinX(rs);
    assert MinY(rs) <= Bottom(rs[i0]) <= MaxBottom(rs);
    assert MinX(rs) <= Right(rs[i1]) <= MaxRight(rs);
    Rect(MinX(rs), MinY(rs), MaxRight(rs) - MinX(rs), MaxBottom(rs) - MinY(rs))
  }

  /** The specification of the calibration loop: the envelope of the boxes
      whose text parses, or `default` when none does. */
  function Calibrated(mode: Mode, input: seq<CaptureInput>, default: Rect): Rect {
    var rs := Matched(mode, input);
    if rs == [] then default else Envelope(rs)
  }

  /** The loop shared by `analyze` and the chat-log branch of `screen_config`.
      Until a box is found `width` and `height` hold its right and bottom
      edges; the final subtractions turn them back into a size. */
  method CaptureEnvelope(mode: Mode, input: seq<CaptureInput>, default: Rect) returns (area: Rect)
    ensures area == Calibrated(mode, input, default)
  {
    area := default;
    var isFound := false;
    ghost var rs: seq<Rect> := [];
    for i := 0 to |input|
      invariant rs == Matched(mode, input[..i])
      invariant !isFound ==> rs == [] && area == default
      invariant isFound ==> rs != [] && area == Rect(MinX(rs), MinY(rs), MaxRight(rs), MaxBottom(rs))
    {
      var v := input[i];
      var found := Detects(mode, v);
      MatchedSnoc(mode, input, i);
      if found {
        if !isFound {
          area := v.area;
          isFound := true;
        }
        ghost var a0 := area;
        area := Rect(
          if v.area.x < area.x then v.area.x else area.x,
          if v.area.y < area.y then v.area.y else area.y,
          if Right(v.area) > area.width then Right(v.area) else area.width,
          if Bottom(v.area) > area.height then Bottom(v.area) else area.height);
        EdgesStep(rs, v.area, a0);
        rs := rs + [v.area];
      }
    }
    assert input[..|input|] == input;
    CalibratedOfEdges(mode, input, default, rs, area, isFound);
    if isFound {
      area := area.(height := area.height - area.y);
      area := area.(width := area.width - area.x);
    }
  }

  /** `screen_config` in chat-log mode. */
  method ScreenConfigChatLog(input: seq<CaptureInput>) returns (area: Rect)
    ensures area == Calibrated(ChatLog, input, ScreenConfigDefault)
  {
    area := CaptureEnvelope(ChatLog, input, ScreenConfigDefault);
  }

  // ---------------------------------------------------------------------
  // what calibration promises

  lemma MatchedSound(mode: Mode, input: seq<CaptureInput>, r: Rect)
    requires r in Matched(mode, input)
    ensures exists i :: 0 <= i < |input| && input[i].area == r && ParseLine(mode, input[i].text).Some?
  {
    var rs := Matched(mode, input);
    var k :| 0 <= k < |rs| && rs[k] == r;
    FilterMapSound(Detection(mode), input);
    var i :| 0 <= i < |input| && Detection(mode)(input[i]) == Some(rs[k]);
    DetectionIsParse(mode, input[i]);
    assert input[i].area == r && ParseLine(mode, input[i].text).Some?;
  }

  lemma MatchedComplete(mode: Mode, input: seq<CaptureInput>, i: nat)
    requires i < |input| && ParseLine(mode, input[i].text).Some?
    ensures input[i].area in Matched(mode, input)
  {
    DetectionIsParse(mode, input[i]);
    DetectedInMatched(mode, input, i);
  }

  lemma DetectedInMatched(mode: Mode, input: seq<CaptureInput>, i: nat)
    requires i < |input| && Detection(mode)(input[i]).Some?
    ensures input[i].area in Matched(mode, input)
  {
    var f := Detection(mode);
    assert input == input[..i] + [input[i]] + input[i + 1..];
    FilterMapConcat(f, input[..i] + [input[i]], input[i + 1..]);
    FilterMapConcat(f, input[..i], [input[i]]);
    assert [input[i]][..0] == [];
    assert FilterMap(f, [input[i]]) == [input[i].area];
  }

  /** Nothing parses exactly when no box is matched. */
  lemma MatchedEmpty(mode: Mode, input: seq<CaptureInput>)
    ensures Matched(mode, input) == [] <==> forall i :: 0 <= i < |input| ==> ParseLine(mode, input[i].text).None?
  {
    FilterMapEmpty(Detection(mode), input);
    forall i | 0 <= i < |input| {
      DetectionIsParse(mode, input[i]);
    }
    assert forall i :: 0 <= i < |input| ==> (Detection(mode)(input[i]).None? <==> ParseLine(mode, input[i].text).None?);
  }

  /** The calibrated region covers every box whose text parses, each of its
      four edges is the edge of such a box, and any rectangle covering all
      those boxes covers the region; when nothing parses it is the default. */
  lemma CalibratedIsEnvelope(mode: Mode, input: seq<CaptureInput>, default: Rect, cover: Rect)
    ensures var c := Calibrated(mode, input, default);
      && ((forall i :: 0 <= i < |input| ==> ParseLine(mode, input[i].text).None?) ==> c == default)
      && (forall i :: 0 <= i < |input| && ParseLine(mode, input[i].text).Some? ==> Contains(c, input[i].area))
    ensures Matched(mode, input) != [] ==>
      var c := Calibrated(mode, input, default);
      && (exists i :: 0 <= i < |input| && ParseLine(mode, input[i].text).Some? && input[i].area.x == c.x)
      && (exists i :: 0 <= i < |input| && ParseLine(mode, input[i].text).Some? && input[i].area.y == c.y)
      && (exists i :: 0 <= i < |input| && ParseLine(mode, input[i].text).Some? && Right(input[i].area) == Right(c))
      && (exists i :: 0 <= i < |input| && ParseLine(mode, input[i].text).Some? && Bottom(input[i].area) == Bottom(c))
    ensures Matched(mode, input) != [] &&
      (forall i :: 0 <= i < |input| && ParseLine(mode, input[i].text).Some? ==> Contains(cover, input[i].area))
      ==> Contains(cover, Calibrated(mode, input, default))
  {
    var rs := Matched(mode, input);
    MatchedEmpty(mode, input);
    forall i | 0 <= i < |input| && ParseLine(mode, input[i].text).Some?
      ensures Contains(Calibrated(mode, input, default), input[i].area)
    {
      MatchedComplete(mode, input, i);
    }
    if rs != [] {
      var c := Envelope(rs);
      var ix :| 0 <= ix < |rs| && rs[ix].x == c.x;
      var iy :| 0 <= iy < |rs| && rs[iy].y == c.y;
      var ir :| 0 <= ir < |rs| && Right(rs[ir]) == Right(c);
      var ib :| 0 <= ib < |rs| && Bottom(rs[ib]) == Bottom(c);
      MatchedSound(mode, input, rs[ix]);
      MatchedSound(mode, input, rs[iy]);
      MatchedSound(mode, input, rs[ir]);
      MatchedSound(mode, input, rs[ib]);
    }
  }
}
