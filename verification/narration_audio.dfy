/**
 Audio helpers of the narration script
 (scripts/google_text_to_speech/red-earth-promise-narration.py):
 `parse_audio_mime_type`, which reads the sample width and rate out of a
 MIME type such as "audio/L16;rate=24000", and `convert_to_wav`, which
 prefixes raw PCM data with the 44-byte RIFF/WAVE header.
 */
module NarrationAudio {
  import opened Common

  /** What `parse_audio_mime_type` returns: both entries are always integers. */
  datatype AudioParams = AudioParams(bitsPerSample: int, rate: int)

  const DefaultBitsPerSample := 16
  const DefaultRate := 24000

  // ---------------------------------------------------------------------------
  // parse_audio_mime_type

  /** `param.lower().startswith("rate=")` on a stripped parameter. */
  predicate IsRateParam(param: string) {
    StartsWith(ToLower(param), "rate=")
  }

  /** What one `;`-separated piece does to the running values. */
  datatype ParamEffect = SetRate(rate: int) | SetBits(bits: int) | NoChange

  /**
   The body of the parsing loop for one piece: a stripped piece starting
   case-insensitively with "rate=" sets the rate to the integer after the
   first `=`; otherwise one starting case-sensitively with "audio/L" sets
   the width to the integer after the first `L`. A value that does not parse
   (ValueError, IndexError) changes nothing.
   */
  function ClassifyParam(piece: string): (effect: ParamEffect)
    ensures effect.SetRate? ==> IsRateParam(Strip(piece))
    ensures effect.SetBits? ==> !IsRateParam(Strip(piece)) && StartsWith(Strip(piece), "audio/L")
  {
    var param := Strip(piece);
    if IsRateParam(param) then
      match AfterFirst(param, '=')
      case None => NoChange
      case Some(rateStr) =>
        match ParseInt(rateStr)
        case None => NoChange
        case Some(rate) => SetRate(rate)
    else if StartsWith(param, "audio/L") then
      match AfterFirst(param, 'L')
      case None => NoChange
      case Some(bitsStr) =>
        match ParseInt(bitsStr)
        case None => NoChange
        case Some(bits) => SetBits(bits)
    else NoChange
  }

  /** The first `c` of `s` is at `k` when `s[k]` is `c` and no earlier character is. */
  lemma AfterFirstAt(s: string, c: char, k: nat)
    requires k < |s| && s[k] == c && c !in s[..k]
    ensures AfterFirst(s, c) == Some(s[k + 1..])
  {
  }

  /** After a prefix whose last character appears nowhere earlier in it, the first such character ends the prefix. */
  lemma AfterPrefixEnd(s: string, prefix: string)
    requires |prefix| > 0 && StartsWith(s, prefix) && prefix[|prefix| - 1] !in prefix[..|prefix| - 1]
    ensures AfterFirst(s, prefix[|prefix| - 1]) == Some(s[|prefix|..])
  {
    var k := |prefix| - 1;
    assert s[..k] == prefix[..k];
    AfterFirstAt(s, prefix[k], k);
  }

  /** Only '=' lower-cases to '='. */
  lemma LowerCharEquals(c: char)
    ensures LowerChar(c) == '=' <==> c == '='
  {
  }

  lemma RatePrefixShape(param: string)
    requires IsRateParam(param)
    ensures |param| >= 5 && '=' !in param[..4] && param[4] == '='
  {
    var lower := ToLower(param);
    assert lower[0] == 'r' && lower[1] == 'a' && lower[2] == 't' && lower[3] == 'e' && lower[4] == '=';
    LowerCharEquals(param[0]);
    LowerCharEquals(param[1]);
    LowerCharEquals(param[2]);
    LowerCharEquals(param[3]);
    LowerCharEquals(param[4]);
  }

  /** In a rate parameter the first '=' is the fifth character, whatever the case of "rate". */
  lemma RateValueAfterPrefix(param: string)
    requires IsRateParam(param)
    ensures |param| >= 5 && AfterFirst(param, '=') == Some(param[5..])
  {
    RatePrefixShape(param);
    AfterFirstAt(param, '=', 4);
  }

  /** In a width parameter the first 'L' is the seventh character. */
  lemma WidthValueAfterPrefix(param: string)
    requires StartsWith(param, "audio/L")
    ensures |param| >= 7 && AfterFirst(param, 'L') == Some(param[7..])
  {
    var prefix := "audio/L";
    assert |prefix| == 7 && prefix[6] == 'L' && 'L' !in prefix[..6] by {
      assert prefix[..6] == "audio/";
    }
    AfterPrefixEnd(param, prefix);
  }

  /**
   What one piece does, by the text after the prefix: a rate parameter sets
   the rate to `int()` of everything after "rate=", an "audio/L" parameter
   sets the width to `int()` of everything after "audio/L", and a value
   `int()` rejects, like any other piece, changes nothing.
   */
  lemma ClassifyParamValue(piece: string)
    ensures var p := Strip(piece);
      && (IsRateParam(p) ==>
            ClassifyParam(piece) == match ParseInt(p[5..]) case Some(v) => SetRate(v) case None => NoChange)
      && (!IsRateParam(p) && StartsWith(p, "audio/L") ==>
            ClassifyParam(piece) == match ParseInt(p[7..]) case Some(v) => SetBits(v) case None => NoChange)
      && (!IsRateParam(p) && !StartsWith(p, "audio/L") ==> ClassifyParam(piece) == NoChange)
  {
    var p := Strip(piece);
    if IsRateParam(p) {
      RateValueAfterPrefix(p);
    } else if StartsWith(p, "audio/L") {
      WidthValueAfterPrefix(p);
    }
  }

  function ApplyEffect(current: AudioParams, effect: ParamEffect): AudioParams {
    match effect
    case SetRate(rate) => current.(rate := rate)
    case SetBits(bits) => current.(bitsPerSample := bits)
    case NoChange => current
  }

  /** The loop over the pieces, first to last. */
  function ApplyEffects(current: AudioParams, effects: seq<ParamEffect>): AudioParams
    decreases |effects|
  {
    if |effects| == 0 then current else ApplyEffects(ApplyEffect(current, effects[0]), effects[1..])
  }

  function Effects(pieces: seq<string>): (effects: seq<ParamEffect>)
    ensures |effects| == |pieces|
    ensures forall j :: 0 <= j < |pieces| ==> effects[j] == ClassifyParam(pieces[j])
  {
    if |pieces| == 0 then [] else [ClassifyParam(pieces[0])] + Effects(pieces[1..])
  }

  /** Each value of the result is the starting value or one that some effect sets. */
  lemma {:induction false} ApplyEffectsProvenance(current: AudioParams, effects: seq<ParamEffect>)
    ensures var r := ApplyEffects(current, effects);
      && (r.rate == current.rate || exists j :: 0 <= j < |effects| && effects[j] == SetRate(r.rate))
      && (r.bitsPerSample == current.bitsPerSample
          || exists j :: 0 <= j < |effects| && effects[j] == SetBits(r.bitsPerSample))
    decreases |effects|
  {
    if |effects| > 0 {
      var next := ApplyEffect(current, effects[0]);
      var r := ApplyEffects(current, effects);
      ApplyEffectsProvenance(next, effects[1..]);
      if r.rate != current.rate && r.rate != next.rate {
        var j :| 0 <= j < |effects[1..]| && effects[1..][j] == SetRate(r.rate);
        assert effects[j + 1] == SetRate(r.rate);
      }
      if r.bitsPerSample != current.bitsPerSample && r.bitsPerSample != next.bitsPerSample {
        var j :| 0 <= j < |effects[1..]| && effects[1..][j] == SetBits(r.bitsPerSample);
        assert effects[j + 1] == SetBits(r.bitsPerSample);
      }
    }
  }


  /** Each value of `params` is the one in `start` or the value that some piece sets. */
  predicate ValuesFromPieces(start: AudioParams, params: AudioParams, pieces: seq<string>) {
    && (params.rate == start.rate
        || exists j :: 0 <= j < |pieces| && ClassifyParam(pieces[j]) == SetRate(params.rate))
    && (params.bitsPerSample == start.bitsPerSample
        || exists j :: 0 <= j < |pieces| && ClassifyParam(pieces[j]) == SetBits(params.bitsPerSample))
  }

  lemma PiecesProvenance(start: AudioParams, pieces: seq<string>)
    ensures ValuesFromPieces(start, ApplyEffects(start, Effects(pieces)), pieces)
  {
    var effects := Effects(pieces);
    var r := ApplyEffects(start, effects);
    ApplyEffectsProvenance(start, effects);
    if r.rate != start.rate {
      var j :| 0 <= j < |effects| && effects[j] == SetRate(r.rate);
      assert ClassifyParam(pieces[j]) == SetRate(r.rate);
    }
    if r.bitsPerSample != start.bitsPerSample {
      var j :| 0 <= j < |effects| && effects[j] == SetBits(r.bitsPerSample);
      assert ClassifyParam(pieces[j]) == SetBits(r.bitsPerSample);
    }
  }

  /** `parse_audio_mime_type`: start from 16 bits at 24000 Hz and apply every piece. */
  function ParseAudioMimeType(mimeType: string): AudioParams {
    ApplyEffects(AudioParams(DefaultBitsPerSample, DefaultRate), Effects(Split(mimeType, ';')))
  }

  /** Each value of the parse is its default or the value that some piece of the MIME type sets. */
  lemma MimeValuesFromPieces(mimeType: string)
    ensures ValuesFromPieces(AudioParams(DefaultBitsPerSample, DefaultRate), ParseAudioMimeType(mimeType),
                             Split(mimeType, ';'))
  {
    PiecesProvenance(AudioParams(DefaultBitsPerSample, DefaultRate), Split(mimeType, ';'));
  }

  /** Effects that set no rate leave the rate as it was. */
  lemma {:induction false} NoRateKeepsRate(current: AudioParams, effects: seq<ParamEffect>)
    requires forall j :: 0 <= j < |effects| ==> !effects[j].SetRate?
    ensures ApplyEffects(current, effects).rate == current.rate
    decreases |effects|
  {
    if |effects| > 0 {
      NoRateKeepsRate(ApplyEffect(current, effects[0]), effects[1..]);
    }
  }

  /** When effect `k` sets the rate and no later one does, the result has `k`'s rate. */
  lemma {:induction false} LastRateWins(current: AudioParams, effects: seq<ParamEffect>, k: nat)
    requires k < |effects| && effects[k].SetRate?
    requires forall j :: k < j < |effects| ==> !effects[j].SetRate?
    ensures ApplyEffects(current, effects).rate == effects[k].rate
    decreases |effects|
  {
    var next := ApplyEffect(current, effects[0]);
    if k == 0 {
      NoRateKeepsRate(next, effects[1..]);
    } else {
      LastRateWins(next, effects[1..], k - 1);
    }
  }

  /** Effects that set no width leave the width as it was. */
  lemma {:induction false} NoBitsKeepsBits(current: AudioParams, effects: seq<ParamEffect>)
    requires forall j :: 0 <= j < |effects| ==> !effects[j].SetBits?
    ensures ApplyEffects(current, effects).bitsPerSample == current.bitsPerSample
    decreases |effects|
  {
    if |effects| > 0 {
      NoBitsKeepsBits(ApplyEffect(current, effects[0]), effects[1..]);
    }
  }

  /** When effect `k` sets the width and no later one does, the result has `k`'s width. */
  lemma {:induction false} LastBitsWin(current: AudioParams, effects: seq<ParamEffect>, k: nat)
    requires k < |effects| && effects[k].SetBits?
    requires forall j :: k < j < |effects| ==> !effects[j].SetBits?
    ensures ApplyEffects(current, effects).bitsPerSample == effects[k].bits
    decreases |effects|
  {
    var next := ApplyEffect(current, effects[0]);
    if k == 0 {
      NoBitsKeepsBits(next, effects[1..]);
    } else {
      LastBitsWin(next, effects[1..], k - 1);
    }
  }

  /**
   Over a whole MIME type: the rate is the one set by the last valid rate
   parameter, and 24000 when there is none.
   */
  lemma MimeRateIsLastValid(mimeType: string, k: int)
    requires var pieces := Split(mimeType, ';');
      && (k == -1 ==> forall j :: 0 <= j < |pieces| ==> !ClassifyParam(pieces[j]).SetRate?)
      && (k != -1 ==> 0 <= k < |pieces| && ClassifyParam(pieces[k]).SetRate?
                      && forall j :: k < j < |pieces| ==> !ClassifyParam(pieces[j]).SetRate?)
    ensures ParseAudioMimeType(mimeType).rate
         == if k == -1 then DefaultRate else ClassifyParam(Split(mimeType, ';')[k]).rate
  {
    var effects := Effects(Split(mimeType, ';'));
    if k == -1 {
      NoRateKeepsRate(AudioParams(DefaultBitsPerSample, DefaultRate), effects);
    } else {
      LastRateWins(AudioParams(DefaultBitsPerSample, DefaultRate), effects, k);
    }
  }

  /**
   Over a whole MIME type: the width is the one set by the last valid
   "audio/L" parameter, and 16 when there is none.
   */
  lemma MimeBitsIsLastValid(mimeType: string, k: int)
    requires var pieces := Split(mimeType, ';');
      && (k == -1 ==> forall j :: 0 <= j < |pieces| ==> !ClassifyParam(pieces[j]).SetBits?)
      && (k != -1 ==> 0 <= k < |pieces| && ClassifyParam(pieces[k]).SetBits?
                      && forall j :: k < j < |pieces| ==> !ClassifyParam(pieces[j]).SetBits?)
    ensures ParseAudioMimeType(mimeType).bitsPerSample
         == if k == -1 then DefaultBitsPerSample else ClassifyParam(Split(mimeType, ';')[k]).bits
  {
    var effects := Effects(Split(mimeType, ';'));
    if k == -1 {
      NoBitsKeepsBits(AudioParams(DefaultBitsPerSample, DefaultRate), effects);
    } else {
      LastBitsWin(AudioParams(DefaultBitsPerSample, DefaultRate), effects, k);
    }
  }

  /** A MIME type of one width piece takes its width and keeps the default rate. */
  lemma MimeOnePiece(mimeType: string, piece: string, bits: int)
    requires Split(mimeType, ';') == [piece] && ClassifyParam(piece) == SetBits(bits)
    ensures ParseAudioMimeType(mimeType) == AudioParams(bits, DefaultRate)
  {
    MimeBitsIsLastValid(mimeType, 0);
    MimeRateIsLastValid(mimeType, -1);
  }

  /** A MIME type of a width piece and then a rate piece takes both. */
  lemma MimeTwoPieces(mimeType: string, first: string, second: string)
    requires Split(mimeType, ';') == [first, second]
    requires ClassifyParam(first).SetBits? && ClassifyParam(second).SetRate?
    ensures ParseAudioMimeType(mimeType) == AudioParams(ClassifyParam(first).bits, ClassifyParam(second).rate)
  {
    MimeBitsIsLastValid(mimeType, 0);
    MimeRateIsLastValid(mimeType, 1);
  }

  /** The first `c` of `prefix + [c] + rest`, when `prefix` has none, is the one after `prefix`. */
  lemma AfterFirstPast(prefix: string, c: char, rest: string)
    requires c !in prefix
    ensures AfterFirst(prefix + [c] + rest, c) == Some(rest)
  {
    var s := prefix + [c] + rest;
    var after := AfterFirst(s, c);
    assert s[|prefix|] == c;
    var k :| 0 <= k < |s| && s[k] == c && c !in s[..k] && after.value == s[k + 1..];
    assert k == |prefix|;
    assert s[k + 1..] == rest;
  }

  lemma RateParamStripped(digits: string)
    requires |digits| > 0 && AllDigits(digits)
    ensures Strip("rate=" + digits) == "rate=" + digits
  {
    var param := "rate=" + digits;
    assert param[0] == 'r' && param[|param| - 1] == digits[|digits| - 1];
    StripNoSpace(param);
  }

  /** "rate=" followed by anything is a rate parameter whose value is what follows the '='. */
  lemma RateParamIsRate(digits: string)
    ensures IsRateParam("rate=" + digits)
    ensures AfterFirst("rate=" + digits, '=') == Some(digits)
  {
    assert IsRateParam("rate=" + digits) by {
      assert ToLower("rate=" + digits)[..5] == "rate=";
    }
    assert AfterFirst("rate=" + digits, '=') == Some(digits) by {
      assert "rate=" + digits == "rate" + ['='] + digits;
      AfterFirstPast("rate", '=', digits);
    }
  }

  /** A parameter "rate=" followed by decimal digits sets the rate to their value. */
  lemma RateParamSetsRate(digits: string)
    requires |digits| > 0 && AllDigits(digits)
    ensures ClassifyParam("rate=" + digits) == SetRate(DigitsValue(digits))
  {
    RateParamStripped(digits);
    RateParamIsRate(digits);
    DigitsParse(digits);
  }

  lemma WidthParamStripped(width: string)
    requires |width| > 0 && !IsSpace(width[|width| - 1])
    ensures Strip("audio/L" + width) == "audio/L" + width
  {
    var param := "audio/L" + width;
    assert param[0] == 'a' && param[|param| - 1] == width[|width| - 1];
    StripNoSpace(param);
  }

  /** "audio/L" followed by anything is a width parameter whose value is what follows the 'L'. */
  lemma WidthParamIsWidth(width: string)
    ensures !IsRateParam("audio/L" + width)
    ensures StartsWith("audio/L" + width, "audio/L")
    ensures AfterFirst("audio/L" + width, 'L') == Some(width)
  {
    var m := "audio/L" + width;
    assert !IsRateParam(m) by {
      assert ToLower(m)[0] == 'a';
    }
    assert m[..7] == "audio/L";
    assert AfterFirst(m, 'L') == Some(width) by {
      var p := "audio/";
      assert 'L' !in p by { assert forall i :: 0 <= i < |p| ==> p[i] != 'L'; }
      assert m == p + ['L'] + width;
      AfterFirstPast(p, 'L', width);
    }
  }

  /** A parameter "audio/L" followed by an integer sets the width, and a negative one too. */
  lemma WidthParamSetsBits(width: string)
    requires |width| > 0 && !IsSpace(width[|width| - 1]) && ParseInt(width).Some?
    ensures ClassifyParam("audio/L" + width) == SetBits(ParseInt(width).value)
  {
    WidthParamStripped(width);
    WidthParamIsWidth(width);
  }

  /** Lower-casing leaves whitespace alone. */
  lemma SpaceKeepsCase(c: char)
    ensures IsSpace(c) ==> LowerChar(c) == c
  {
  }

  /** "rate=" in any case has no space at either end. */
  lemma RateKeyEnds(key: string)
    requires |key| == 5 && ToLower(key) == "rate="
    ensures !IsSpace(key[0]) && key[4] == '='
  {
    assert LowerChar(key[0]) == ToLower(key)[0] == 'r';
    SpaceKeepsCase(key[0]);
    assert LowerChar(key[4]) == ToLower(key)[4] == '=';
    LowerCharEquals(key[4]);
  }

  /** "rate=" in any case starts a rate parameter, whatever follows. */
  lemma RateKeyStarts(key: string, tail: string)
    requires |key| == 5 && ToLower(key) == "rate="
    ensures IsRateParam(key + tail)
  {
    var p := key + tail;
    forall i | 0 <= i < 5
      ensures ToLower(p)[i] == ToLower(key)[i]
    {
      assert p[i] == key[i];
    }
    assert ToLower(p)[..5] == ToLower(key);
  }

  /**
   A piece made of whitespace, "rate=" in any case and a value sets the rate
   to `int(value)`; a value `int()` rejects (letters, nothing at all, a
   decimal point) leaves everything as it was. `strip()` has already removed
   the whitespace after the value, separators 28-31 included, before `int()`
   sees it.
   */
  lemma RatePieceValue(lead: string, key: string, value: string)
    requires forall i :: 0 <= i < |lead| ==> IsSpace(lead[i])
    requires |key| == 5 && ToLower(key) == "rate="
    ensures ClassifyParam(lead + key + value)
         == match ParseInt(StripEnd(value)) case Some(v) => SetRate(v) case None => NoChange
  {
    var piece := lead + key + value;
    var p := key + StripEnd(value);
    RateKeyEnds(key);
    RateKeyStarts(key, StripEnd(value));
    StripAroundWord(lead, key, value);
    assert p[5..] == StripEnd(value);
    ClassifyParamValue(piece);
  }

  /**
   A piece made of whitespace, "audio/L" and a value sets the sample width
   to `int(value)`, read after `strip()` has removed the trailing
   whitespace; a value `int()` rejects leaves everything as it was.
   */
  lemma WidthPieceValue(lead: string, value: string)
    requires forall i :: 0 <= i < |lead| ==> IsSpace(lead[i])
    ensures ClassifyParam(lead + "audio/L" + value)
         == match ParseInt(StripEnd(value)) case Some(v) => SetBits(v) case None => NoChange
  {
    var piece := lead + "audio/L" + value;
    var p := "audio/L" + StripEnd(value);
    assert Strip(piece) == p by {
      var w := "audio/L";
      assert !IsSpace(w[0]) && !IsSpace(w[6]);
      StripAroundWord(lead, w, value);
    }
    WidthParamIsWidth(StripEnd(value));
    assert p[7..] == StripEnd(value);
    ClassifyParamValue(piece);
  }

  /**
   A separator character 28-31 between "rate=" and the digits is one
   `int()` does not skip, so the rate stays as it was, although `strip()`
   would have removed the same character.
   */
  lemma SeparatorBeforeRate(c: char, digits: string)
    requires '\U{1C}' <= c <= '\U{1F}'
    requires |digits| > 0 && AllDigits(digits)
    ensures ClassifyParam("rate=" + ([c] + digits)) == NoChange
    ensures Strip([c] + digits) == digits
  {
    SeparatorNotInt(c, digits);
    RateOnlyValue([c] + digits);
  }

  lemma RateOnlyValue(value: string)
    ensures ClassifyParam("rate=" + value)
         == match ParseInt(StripEnd(value)) case Some(v) => SetRate(v) case None => NoChange
  {
    LowerRateKey();
    assert "" + "rate=" + value == "rate=" + value;
    RatePieceValue("", "rate=", value);
  }

  lemma SeparatorNotInt(c: char, digits: string)
    requires '\U{1C}' <= c <= '\U{1F}'
    requires |digits| > 0 && AllDigits(digits)
    ensures ParseInt(StripEnd([c] + digits)) == None
    ensures Strip([c] + digits) == digits
  {
    SeparatorKept(c, digits);
    SeparatorStripped(c, digits);
  }

  lemma SeparatorKept(c: char, digits: string)
    requires '\U{1C}' <= c <= '\U{1F}'
    requires |digits| > 0 && AllDigits(digits)
    ensures StripEnd([c] + digits) == [c] + digits
    ensures IntStrip([c] + digits) == [c] + digits
    ensures ParseSigned([c] + digits) == None
  {
    var value := [c] + digits;
    assert value[|value| - 1] == digits[|digits| - 1];
    assert !IsSpace(value[|value| - 1]);
    SeparatorIntStrip(value);
    SeparatorSigned(value);
  }

  lemma SeparatorIntStrip(value: string)
    requires |value| > 0 && '\U{1C}' <= value[0] <= '\U{1F}' && !IsSpace(value[|value| - 1])
    ensures IntStrip(value) == value
  {
    IntStripNoSpace(value);
  }

  lemma SeparatorSigned(value: string)
    requires |value| > 0 && '\U{1C}' <= value[0] <= '\U{1F}'
    ensures ParseSigned(value) == None
  {
    assert !IsDigit(value[0]);
  }

  lemma SeparatorStripped(c: char, digits: string)
    requires '\U{1C}' <= c <= '\U{1F}'
    requires |digits| > 0 && AllDigits(digits)
    ensures Strip([c] + digits) == digits
  {
    var value := [c] + digits;
    assert value[1..] == digits;
    assert StripStart(value) == digits by {
      assert IsSpace(value[0]);
      assert StripStart(digits) == digits by { assert !IsSpace(digits[0]); }
    }
    StripNoSpace(digits);
  }

  lemma LowerRateKey()
    ensures ToLower("rate=") == "rate="
  {
    var k := ToLower("rate=");
    assert k[0] == 'r' && k[1] == 'a' && k[2] == 't' && k[3] == 'e' && k[4] == '=';
  }

  lemma WidthThenRatePieces(width: string, digits: string)
    requires ';' !in width && AllDigits(digits)
    ensures Split("audio/L" + width + ";rate=" + digits, ';') == ["audio/L" + width, "rate=" + digits]
  {
    var first := "audio/L" + width;
    var second := "rate=" + digits;
    assert "audio/L" + width + ";rate=" + digits == first + [';'] + second;
    assert ';' !in first by { assert forall i :: 0 <= i < 7 ==> first[i] == "audio/L"[i]; }
    assert ';' !in second by { assert forall i :: 0 <= i < 5 ==> second[i] == "rate="[i]; }
    SplitAtFirst(first, ';', second);
    SplitNoSeparator(second, ';');
  }

  /**
   The shape the speech service returns, "audio/L<width>;rate=<digits>"
   ("audio/L16;rate=24000"): both values are taken from it.
   */
  lemma WidthThenRate(width: string, digits: string)
    requires |width| > 0 && !IsSpace(width[|width| - 1]) && ';' !in width && ParseInt(width).Some?
    requires |digits| > 0 && AllDigits(digits)
    ensures ParseAudioMimeType("audio/L" + width + ";rate=" + digits)
         == AudioParams(ParseInt(width).value, DigitsValue(digits))
  {
    WidthThenRatePieces(width, digits);
    WidthParamSetsBits(width);
    RateParamSetsRate(digits);
    MimeTwoPieces("audio/L" + width + ";rate=" + digits, "audio/L" + width, "rate=" + digits);
  }

  // ---------------------------------------------------------------------------
  // Little-endian packing

  function Pow256(width: nat): nat {
    if width == 0 then 1 else 256 * Pow256(width - 1)
  }

  /** `struct.pack("<I")` (width 4) and `struct.pack("<H")` (width 2). */
  function LittleEndian(x: nat, width: nat): (bytes: seq<byte>)
    requires x < Pow256(width)
    ensures |bytes| == width
  {
    if width == 0 then [] else [(x % 256) as byte] + LittleEndian(x / 256, width - 1)
  }

  /** The unsigned value of little-endian bytes. */
  function FromLittleEndian(bytes: seq<byte>): nat {
    if |bytes| == 0 then 0 else bytes[0] as nat + 256 * FromLittleEndian(bytes[1..])
  }

  lemma {:induction false} LittleEndianRoundTrip(x: nat, width: nat)
    requires x < Pow256(width)
    ensures FromLittleEndian(LittleEndian(x, width)) == x
  {
    if width > 0 {
      LittleEndianRoundTrip(x / 256, width - 1);
      assert LittleEndian(x, width)[1..] == LittleEndian(x / 256, width - 1);
    }
  }

  /** The four-byte ASCII tags of the header. */
  const RiffTag: seq<byte> := [0x52, 0x49, 0x46, 0x46]   // "RIFF"
  const WaveTag: seq<byte> := [0x57, 0x41, 0x56, 0x45]   // "WAVE"
  const FmtTag: seq<byte> := [0x66, 0x6d, 0x74, 0x20]    // "fmt "
  const DataTag: seq<byte> := [0x64, 0x61, 0x74, 0x61]   // "data"

  // ---------------------------------------------------------------------------
  // convert_to_wav

  const U32Limit := 0x1_0000_0000
  const U16Limit := 0x1_0000

  /** The header fields `convert_to_wav` computes before packing. */
  datatype WavFields = WavFields(
    chunkSize: int, sampleRate: int, byteRate: int, blockAlign: int, bitsPerSample: int, dataSize: int)

  /**
   The relations the WAVE format requires of a one-channel PCM header:
   ChunkSize counts the 36 header bytes after it plus the data,
   BlockAlign = BitsPerSample / 8 and ByteRate = SampleRate * BlockAlign.
   */
  predicate MonoPcmConsistent(f: WavFields) {
    && f.chunkSize == 36 + f.dataSize
    && f.blockAlign == f.bitsPerSample / 8
    && f.byteRate == f.sampleRate * f.blockAlign
  }

  /** The fields `convert_to_wav` computes: the parsed rate and width, n data bytes, one channel. */
  function HeaderFields(params: AudioParams, dataSize: nat): (f: WavFields)
    ensures MonoPcmConsistent(f)
    ensures f.sampleRate == params.rate && f.bitsPerSample == params.bitsPerSample && f.dataSize == dataSize
  {
    var numChannels := 1;
    var bytesPerSample := params.bitsPerSample / 8;
    var blockAlign := numChannels * bytesPerSample;
    var byteRate := params.rate * blockAlign;
    WavFields(36 + dataSize, params.rate, byteRate, blockAlign, params.bitsPerSample, dataSize)
  }

  /** Every field fits its `I` (32-bit) or `H` (16-bit) slot; otherwise `struct.pack` raises. */
  predicate Packable(f: WavFields) {
    && 0 <= f.chunkSize < U32Limit
    && 0 <= f.sampleRate < U32Limit
    && 0 <= f.byteRate < U32Limit
    && 0 <= f.blockAlign < U16Limit
    && 0 <= f.bitsPerSample < U16Limit
    && 0 <= f.dataSize < U32Limit
  }

  /** The RIFF descriptor: "RIFF", ChunkSize, "WAVE". */
  function RiffDescriptor(f: WavFields): (bytes: seq<byte>)
    requires Packable(f)
    ensures |bytes| == 12
  {
    RiffTag + LittleEndian(f.chunkSize, 4) + WaveTag
  }

  /** The fixed start of the format sub-chunk: "fmt ", size 16, PCM (1), one channel. */
  function FmtPreamble(): (bytes: seq<byte>)
    ensures |bytes| == 12
  {
    FmtTag + LittleEndian(16, 4) + LittleEndian(1, 2) + LittleEndian(1, 2)
  }

  /** The rest of the format sub-chunk: rate, byte rate, alignment, width. */
  function FmtRates(f: WavFields): (bytes: seq<byte>)
    requires Packable(f)
    ensures |bytes| == 12
  {
    LittleEndian(f.sampleRate, 4) + LittleEndian(f.byteRate, 4)
    + LittleEndian(f.blockAlign, 2) + LittleEndian(f.bitsPerSample, 2)
  }

  /** The data sub-chunk header: "data", size. */
  function DataChunkHeader(f: WavFields): (bytes: seq<byte>)
    requires Packable(f)
    ensures |bytes| == 8
  {
    DataTag + LittleEndian(f.dataSize, 4)
  }

  /** `struct.pack("<4sI4s4sIHHIIHH4sI", ...)`: the parts in order. */
  function PackHeader(f: WavFields): (header: seq<byte>)
    requires Packable(f)
    ensures |header| == 44
  {
    RiffDescriptor(f) + FmtPreamble() + FmtRates(f) + DataChunkHeader(f)
  }

  /**
   `convert_to_wav`: the packed header followed by the audio bytes, or
   `None` where `struct.pack` raises.
   */
  function ConvertToWav(audioData: seq<byte>, mimeType: string): (wav: Option<seq<byte>>)
    ensures wav.Some? <==> Packable(HeaderFields(ParseAudioMimeType(mimeType), |audioData|))
    ensures wav.Some? ==> |wav.value| == 44 + |audioData| && wav.value[44..] == audioData
  {
    var fields := HeaderFields(ParseAudioMimeType(mimeType), |audioData|);
    if Packable(fields) then
      var header := PackHeader(fields);
      assert (header + audioData)[44..] == audioData;
      Some(header + audioData)
    else None
  }

  /** A WAV header read back field by field. */
  datatype DecodedHeader = DecodedHeader(
    chunkId: seq<byte>, chunkSize: nat, format: seq<byte>, subchunk1Id: seq<byte>, subchunk1Size: nat,
    audioFormat: nat, numChannels: nat, sampleRate: nat, byteRate: nat, blockAlign: nat,
    bitsPerSample: nat, subchunk2Id: seq<byte>, subchunk2Size: nat)

  /**
   Reads the canonical 44-byte PCM header at the offsets of the WAVE format:
   bytes 0-11 the descriptor, 12-35 the format sub-chunk, 36-43 the data
   sub-chunk header.
   */
  function DecodeHeader(wav: seq<byte>): DecodedHeader
    requires |wav| >= 44
  {
    var r, p, q, d := wav[0..12], wav[12..24], wav[24..36], wav[36..44];
    DecodedHeader(
      r[0..4], FromLittleEndian(r[4..8]), r[8..12],
      p[0..4], FromLittleEndian(p[4..8]), FromLittleEndian(p[8..10]), FromLittleEndian(p[10..12]),
      FromLittleEndian(q[0..4]), FromLittleEndian(q[4..8]), FromLittleEndian(q[8..10]), FromLittleEndian(q[10..12]),
      d[0..4], FromLittleEndian(d[4..8]))
  }

  /** The four parts of `r + p + q + d + data` sit one after another. */
  lemma FourParts<T>(r: seq<T>, p: seq<T>, q: seq<T>, d: seq<T>, data: seq<T>)
    ensures var w := r + p + q + d + data;
      && w[0..|r|] == r && w[|r|..|r| + |p|] == p
      && w[|r| + |p|..|r| + |p| + |q|] == q && w[|r| + |p| + |q|..|r| + |p| + |q| + |d|] == d
  {
    var w := r + p + q + d + data;
    assert w == r + (p + (q + (d + data)));
    assert w[|r|..] == p + (q + (d + data));
    assert w[|r| + |p|..] == q + (d + data);
    assert w[|r| + |p| + |q|..] == d + data;
  }

  /** Where each part lands in a packed file. */
  lemma PackHeaderLayout(f: WavFields, data: seq<byte>)
    requires Packable(f)
    ensures var w := PackHeader(f) + data;
      && w[0..12] == RiffDescriptor(f) && w[12..24] == FmtPreamble()
      && w[24..36] == FmtRates(f) && w[36..44] == DataChunkHeader(f)
  {
    FourParts(RiffDescriptor(f), FmtPreamble(), FmtRates(f), DataChunkHeader(f), data);
  }

  /** The descriptor reads back as "RIFF", ChunkSize, "WAVE". */
  lemma RiffRoundTrip(f: WavFields)
    requires Packable(f)
    ensures var r := RiffDescriptor(f);
      r[0..4] == RiffTag && FromLittleEndian(r[4..8]) == f.chunkSize && r[8..12] == WaveTag
  {
    var r := RiffDescriptor(f);
    assert r[4..8] == LittleEndian(f.chunkSize, 4);
    LittleEndianRoundTrip(f.chunkSize, 4);
  }

  /** The fixed part of the format sub-chunk reads back as "fmt ", 16, 1, 1. */
  lemma FmtPreambleRoundTrip()
    ensures var p := FmtPreamble();
      && p[0..4] == FmtTag && FromLittleEndian(p[4..8]) == 16
      && FromLittleEndian(p[8..10]) == 1 && FromLittleEndian(p[10..12]) == 1
  {
    var p := FmtPreamble();
    var size, format := LittleEndian(16, 4), LittleEndian(1, 2);
    assert p == FmtTag + size + format + format + [];
    FourParts(FmtTag, size, format, format, []);
    LittleEndianRoundTrip(16, 4);
    LittleEndianRoundTrip(1, 2);
  }

  /** The rates part of the format sub-chunk reads back field by field. */
  lemma FmtRatesRoundTrip(f: WavFields)
    requires Packable(f)
    ensures var q := FmtRates(f);
      && FromLittleEndian(q[0..4]) == f.sampleRate && FromLittleEndian(q[4..8]) == f.byteRate
      && FromLittleEndian(q[8..10]) == f.blockAlign && FromLittleEndian(q[10..12]) == f.bitsPerSample
  {
    var q := FmtRates(f);
    assert q[0..4] == LittleEndian(f.sampleRate, 4);
    assert q[4..8] == LittleEndian(f.byteRate, 4);
    assert q[8..10] == LittleEndian(f.blockAlign, 2);
    assert q[10..12] == LittleEndian(f.bitsPerSample, 2);
    LittleEndianRoundTrip(f.sampleRate, 4);
    LittleEndianRoundTrip(f.byteRate, 4);
    LittleEndianRoundTrip(f.blockAlign, 2);
    LittleEndianRoundTrip(f.bitsPerSample, 2);
  }

  /** The data sub-chunk header reads back as "data", size. */
  lemma DataRoundTrip(f: WavFields)
    requires Packable(f)
    ensures var d := DataChunkHeader(f);
      d[0..4] == DataTag && FromLittleEndian(d[4..8]) == f.dataSize
  {
    var d := DataChunkHeader(f);
    assert d[4..8] == LittleEndian(f.dataSize, 4);
    LittleEndianRoundTrip(f.dataSize, 4);
  }

  /** Packing then reading back the header recovers every field at its offset. */
  lemma PackHeaderRoundTrip(f: WavFields, data: seq<byte>)
    requires Packable(f)
    ensures DecodeHeader(PackHeader(f) + data) == DecodedHeader(
      RiffTag, f.chunkSize, WaveTag, FmtTag, 16, 1, 1,
      f.sampleRate, f.byteRate, f.blockAlign, f.bitsPerSample, DataTag, f.dataSize)
  {
    PackHeaderLayout(f, data);
    RiffRoundTrip(f);
    FmtPreambleRoundTrip();
    FmtRatesRoundTrip(f);
    DataRoundTrip(f);
  }

  /**
   The WAV file `convert_to_wav` writes declares a RIFF chunk of 36 + n bytes,
   a 16-byte PCM format chunk with one channel, the parsed rate and width,
   BlockAlign = width // 8, ByteRate = rate * BlockAlign, and a data chunk of
   n bytes, with the audio unchanged after the header.
   */
  lemma WavHeaderFields(audioData: seq<byte>, mimeType: string)
    requires ConvertToWav(audioData, mimeType).Some?
    ensures
      var params := ParseAudioMimeType(mimeType);
      var wav := ConvertToWav(audioData, mimeType).value;
      && DecodeHeader(wav) == DecodedHeader(
           RiffTag, 36 + |audioData|, WaveTag, FmtTag, 16, 1, 1,
           params.rate, params.rate * (params.bitsPerSample / 8), params.bitsPerSample / 8,
           params.bitsPerSample, DataTag, |audioData|)
      && wav[44..] == audioData
  {
    var fields := HeaderFields(ParseAudioMimeType(mimeType), |audioData|);
    assert ConvertToWav(audioData, mimeType).value == PackHeader(fields) + audioData;
    PackHeaderRoundTrip(fields, audioData);
  }

  /** A data block of 2^32 - 36 bytes or more overflows ChunkSize. */
  lemma OversizedDataFails(audioData: seq<byte>, mimeType: string)
    requires 36 + |audioData| >= U32Limit
    ensures ConvertToWav(audioData, mimeType).None?
  {
  }

  lemma NegativeParseStripped(digits: string)
    requires |digits| > 0 && AllDigits(digits)
    ensures ParseInt(StripEnd("-" + digits)) == Some(0 - DigitsValue(digits))
  {
    NegativeStripped(digits);
    NegativeParse(digits);
  }

  lemma WidthParamPieces(width: string)
    requires ';' !in width
    ensures Split("audio/L" + width, ';') == ["audio/L" + width]
  {
    var m := "audio/L" + width;
    assert ';' !in m by {
      assert forall i :: 0 <= i < 7 ==> m[i] == "audio/L"[i];
      assert forall i :: 7 <= i < |m| ==> m[i] == width[i - 7];
    }
    SplitNoSeparator(m, ';');
  }

  /** A MIME type that is only "audio/L<width>" takes its width and keeps the default rate. */
  lemma WidthOnly(width: string)
    requires ';' !in width && ParseInt(StripEnd(width)).Some?
    ensures ParseAudioMimeType("audio/L" + width) == AudioParams(ParseInt(StripEnd(width)).value, DefaultRate)
  {
    var bits := ParseInt(StripEnd(width)).value;
    SomeWithValue(ParseInt(StripEnd(width)), bits);
    WidthOnlyBits(width, bits);
  }

  lemma WidthOnlyBits(width: string, bits: int)
    requires ';' !in width && ParseInt(StripEnd(width)) == Some(bits)
    ensures ParseAudioMimeType("audio/L" + width) == AudioParams(bits, DefaultRate)
  {
    var m := "audio/L" + width;
    WidthParamPieces(width);
    WidthOnlyValue(width);
    MimeOnePiece(m, m, bits);
  }

  lemma WidthOnlyValue(value: string)
    ensures ClassifyParam("audio/L" + value)
         == match ParseInt(StripEnd(value)) case Some(v) => SetBits(v) case None => NoChange
  {
    assert "" + "audio/L" == "audio/L";
    WidthPieceValue("", value);
  }

  lemma NegativeWidthParsed(digits: string)
    requires |digits| > 0 && AllDigits(digits)
    ensures ParseAudioMimeType("audio/L" + ("-" + digits)).bitsPerSample == 0 - DigitsValue(digits)
  {
    NegativeParseStripped(digits);
    NegativeNoSeparator(digits);
    WidthOnly("-" + digits);
  }

  lemma NegativeNoSeparator(digits: string)
    requires AllDigits(digits)
    ensures ';' !in "-" + digits
  {
    var width := "-" + digits;
    assert forall i :: 1 <= i < |width| ==> width[i] == digits[i - 1];
  }

  /**
   A width that `int()` reads as negative, such as the "-16" of "audio/L-16",
   is accepted by the parser but makes BitsPerSample and BlockAlign negative,
   so packing fails.
   */
  lemma NegativeWidthFails(audioData: seq<byte>, width: string)
    requires ';' !in width && ParseInt(StripEnd(width)).Some? && ParseInt(StripEnd(width)).value < 0
    ensures ParseAudioMimeType("audio/L" + width).bitsPerSample == ParseInt(StripEnd(width)).value
    ensures ConvertToWav(audioData, "audio/L" + width).None?
  {
    WidthOnly(width);
    NegativeWidthUnpackable(audioData, "audio/L" + width);
  }

  lemma NegativeWidthUnpackable(audioData: seq<byte>, mimeType: string)
    requires ParseAudioMimeType(mimeType).bitsPerSample < 0
    ensures ConvertToWav(audioData, mimeType).None?
  {
    var f := HeaderFields(ParseAudioMimeType(mimeType), |audioData|);
    assert f.bitsPerSample < 0;
  }
}
